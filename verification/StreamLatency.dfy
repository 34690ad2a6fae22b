/** Latency accounting over streamed responses (rps-serve/benchmarks/backend_request_func.py): time to
    first token, inter-token latencies and total latency, for each of the four streaming loops. */
module StreamLatency {
  import opened Sums

  datatype Api = Tgi | TrtLlm | Completions | Chat

  /** A chunk of the stream. Data carries the readings of the clock at it: at is the first, again the
      second, which the code takes only where it treats the chunk as the first token. choices says
      whether a token came with it, generated whether the final text did. Bad raises when decoded. */
  datatype Chunk = Empty | Ping | DoneMark | Bad | Data(at: real, again: real, choices: bool, generated: bool)

  datatype Output = Output(success: bool, latency: real, ttft: real, itl: seq<real>)

  /** What a loop cannot decode ends it with an exception; what is neither this nor data is skipped. */
  predicate Raises(api: Api, c: Chunk) {
    match c
    case Bad => true
    case Ping => api.TrtLlm? || api.Completions?
    case DoneMark => api.Tgi? || api.TrtLlm?
    case _ => false
  }

  /** The number of chunks before the first that raises. */
  function Handled(api: Api, chunks: seq<Chunk>): (k: nat)
    ensures k <= |chunks| && (k < |chunks| ==> Raises(api, chunks[k]))
    ensures forall i :: 0 <= i < k ==> !Raises(api, chunks[i])
  {
    if chunks == [] then 0 else if Raises(api, chunks[0]) then 0 else
      var k := Handled(api, chunks[1..]);
      assert forall i :: 1 <= i < k + 1 ==> chunks[i] == chunks[1..][i - 1];
      k + 1
  }

  /** The data chunks, or only those with a token. */
  function DataOf(chunks: seq<Chunk>, tokens: bool): (ds: seq<Chunk>)
    ensures forall i :: 0 <= i < |ds| ==> ds[i].Data?
  {
    if chunks == [] then []
    else
      var last := chunks[|chunks| - 1];
      DataOf(chunks[..|chunks| - 1], tokens) + if last.Data? && (tokens ==> last.choices) then [last] else []
  }

  function At(ds: seq<Chunk>): seq<real>
    requires forall i :: 0 <= i < |ds| ==> ds[i].Data?
  {
    seq(|ds|, i requires 0 <= i < |ds| => ds[i].at)
  }

  function Again(ds: seq<Chunk>): seq<real>
    requires forall i :: 0 <= i < |ds| ==> ds[i].Data?
  {
    seq(|ds|, i requires 0 <= i < |ds| => ds[i].again)
  }

  /** The mark that ends a stream is no JSON and ends the loops that do not look for it; a ping ends those
      that do not skip it. */
  lemma RaisesExact(api: Api, c: Chunk)
    ensures Raises(api, Bad) && !Raises(api, Empty) && (c.Data? ==> !Raises(api, c))
    ensures Raises(api, DoneMark) <==> api != Completions && api != Chat
    ensures Raises(api, Ping) <==> api != Tgi && api != Chat
  {}

  /** The data chunks of two streams one after the other are those of the first and then of the second. */
  lemma {:induction false} DataJoin(a: seq<Chunk>, b: seq<Chunk>, tokens: bool)
    ensures DataOf(a + b, tokens) == DataOf(a, tokens) + DataOf(b, tokens)
  {
    if b == [] {
      assert a + b == a;
    } else {
      var n := |b| - 1;
      assert (a + b)[..|a| + n] == a + b[..n];
      DataJoin(a, b[..n], tokens);
    }
  }

  lemma {:induction false} DataOne(at: real, again: real, choices: bool, generated: bool, tokens: bool)
    ensures var c := Data(at, again, choices, generated); DataOf([c], tokens) == if tokens && !choices then [] else [c]
    ensures DataOf([Empty], tokens) == DataOf([Ping], tokens) == DataOf([DoneMark], tokens) == []
  {
    var c := Data(at, again, choices, generated);
    assert DataOf([c][..0], tokens) == [];
    assert DataOf([Empty][..0], tokens) == DataOf([Ping][..0], tokens) == DataOf([DoneMark][..0], tokens) == [];
  }

  // ---------------------------------------------------------------- what the loops compute

  function LastOr(times: seq<real>, start: real): real { if times == [] then start else times[|times| - 1] }

  /** How many marks at the front equal the start: a time to first token of zero still counts as none. */
  function Lead(marks: seq<real>, start: real): (k: nat)
    ensures k <= |marks| && (k < |marks| ==> marks[k] != start) && forall i :: 0 <= i < k ==> marks[i] == start
  {
    if marks == [] then 0
    else
      var n := |marks| - 1;
      var k := Lead(marks[..n], start);
      if k < n then k else if marks[n] == start then n + 1 else n
  }

  function Ttft(marks: seq<real>, start: real): real {
    var k := Lead(marks, start);
    if k < |marks| then marks[k] - start else 0.0
  }

  /** The gaps between consecutive times from index f on. */
  function Gaps(times: seq<real>, f: nat): seq<real> {
    if |times| <= f + 1 then [] else Gaps(times[..|times| - 1], f) + [times[|times| - 1] - times[|times| - 2]]
  }

  lemma {:induction false} LeadNext(marks: seq<real>, m: real, start: real)
    ensures Lead(marks + [m], start) ==
      if Lead(marks, start) < |marks| then Lead(marks, start) else if m == start then |marks| + 1 else |marks|
    ensures Ttft(marks + [m], start) == if Lead(marks, start) < |marks| then Ttft(marks, start) else m - start
  {
    assert (marks + [m])[..|marks|] == marks;
  }

  lemma {:induction false} GapsNext(times: seq<real>, t: real, f: nat)
    ensures Gaps(times + [t], f) == Gaps(times, f) + if f < |times| then [t - times[|times| - 1]] else []
  {
    assert (times + [t])[..|times|] == times;
  }

  lemma {:induction false} DataNext(chunks: seq<Chunk>, i: nat, tokens: bool)
    requires i < |chunks|
    ensures var ds, c := DataOf(chunks[..i], tokens), chunks[i];
      DataOf(chunks[..i + 1], tokens) == if c.Data? && (tokens ==> c.choices) then ds + [c] else ds
  {
    assert chunks[..i + 1][..i] == chunks[..i];
    assert DataOf(chunks[..i], tokens) + [] == DataOf(chunks[..i], tokens);
  }

  lemma ReadingsNext(ds: seq<Chunk>, c: Chunk)
    requires c.Data? && forall i :: 0 <= i < |ds| ==> ds[i].Data?
    ensures At(ds + [c]) == At(ds) + [c.at] && Again(ds + [c]) == Again(ds) + [c.again]
  {}

  /** The common meter: first-token marks and times of the data seen so far. */
  ghost predicate Metered(marks: seq<real>, times: seq<real>, start: real, ttft: real, itl: seq<real>, recent: real) {
    |marks| == |times| && ttft == Ttft(marks, start) && itl == Gaps(times, Lead(marks, start)) &&
      recent == LastOr(times, start)
  }

  lemma {:induction false} MeteredNext(marks: seq<real>, times: seq<real>, start: real, ttft: real, itl: seq<real>,
                                       recent: real, m: real, t: real)
    requires Metered(marks, times, start, ttft, itl, recent)
    ensures ttft == 0.0 ==> Metered(marks + [m], times + [t], start, m - start, itl, t)
    ensures ttft != 0.0 ==> Metered(marks + [m], times + [t], start, ttft, itl + [t - recent], t)
    ensures ttft == 0.0 <==> Lead(marks, start) == |marks|
  {
    LeadNext(marks, m, start);
    GapsNext(times, t, Lead(marks + [m], start));
  }

  // ---------------------------------------------------------------- the parts against the whole

  lemma {:induction false} GapsTelescope(times: seq<real>, f: nat)
    requires f < |times|
    ensures RealTotal(Gaps(times, f)) == times[|times| - 1] - times[f]
  {
    if f + 1 < |times| {
      var n := |times| - 1;
      GapsTelescope(times[..n], f);
      RealTotalNext(Gaps(times[..n], f), times[n] - times[n - 1]);
    }
  }

  /** The delay between the two readings at the chunk that set the time to first token. */
  function Excess(marks: seq<real>, times: seq<real>, f: nat): real
    requires |marks| == |times|
  {
    if times == [] then 0.0
    else if f < |times| then marks[f] - times[f] else marks[|times| - 1] - times[|times| - 1]
  }

  /** Time to first token and inter-token latencies add up to the latency plus the delay between the
      two readings of the clock, for any clock; so with a single reading they add up exactly. */
  lemma {:induction false} MeterExcess(marks: seq<real>, times: seq<real>, start: real, ttft: real, itl: seq<real>,
                                       recent: real)
    requires Metered(marks, times, start, ttft, itl, recent)
    ensures ttft + RealTotal(itl) == recent - start + Excess(marks, times, Lead(marks, start))
    ensures marks == times ==> ttft + RealTotal(itl) == recent - start
  {
    var f := Lead(marks, start);
    if f < |times| { GapsTelescope(times, f); }
  }

  function Marks(ds: seq<Chunk>, again: bool): seq<real>
    requires forall i :: 0 <= i < |ds| ==> ds[i].Data?
  {
    if again then Again(ds) else At(ds)
  }

  /** The first token sets the time to first token, any other adds the time since the one before. */
  method MeasureToken(start: real, ttft: real, itl: seq<real>, recent: real, c: Chunk, again: bool,
                      ghost ds: seq<Chunk>)
    returns (ttft': real, itl': seq<real>)
    requires c.Data? && forall i :: 0 <= i < |ds| ==> ds[i].Data?
    requires Metered(Marks(ds, again), At(ds), start, ttft, itl, recent)
    ensures Metered(Marks(ds + [c], again), At(ds + [c]), start, ttft', itl', c.at)
  {
    ReadingsNext(ds, c);
    MeteredNext(Marks(ds, again), At(ds), start, ttft, itl, recent, if again then c.again else c.at, c.at);
    if ttft == 0.0 {
      ttft', itl' := (if again then c.again else c.at) - start, itl;
    } else {
      ttft', itl' := ttft, itl + [c.at - recent];
    }
  }

  /** The last data chunk says that the text is complete. */
  predicate EndsGenerated(ds: seq<Chunk>)
    requires forall i :: 0 <= i < |ds| ==> ds[i].Data?
  {
    ds != [] && ds[|ds| - 1].generated
  }

  lemma GeneratedByLast(ds: seq<Chunk>, c: Chunk)
    requires c.Data? && forall i :: 0 <= i < |ds| ==> ds[i].Data?
    ensures EndsGenerated(ds + [c]) == c.generated && !EndsGenerated([])
  {}

  /** The loops stop before the chunk that raises, if any does, with what they have measured by then. */
  method TgiLoop(start: real, chunks: seq<Chunk>)
    returns (k: nat, ttft: real, itl: seq<real>, recent: real, generated: bool)
    ensures k == Handled(Tgi, chunks)
    ensures var ds := DataOf(chunks[..k], false);
      Metered(Again(ds), At(ds), start, ttft, itl, recent) && generated == EndsGenerated(ds)
  {
    ttft, itl, recent, generated := 0.0, [], start, false;
    k := 0;
    ghost var ds := [];
    while k < |chunks| && !Raises(Tgi, chunks[k])
      invariant k <= Handled(Tgi, chunks) && ds == DataOf(chunks[..k], false)
      invariant Metered(Again(ds), At(ds), start, ttft, itl, recent) && generated == EndsGenerated(ds)
    {
      DataNext(chunks, k, false);
      var c := chunks[k];
      if c.Data? {
        ttft, itl := MeasureToken(start, ttft, itl, recent, c, true, ds);
        recent, generated := c.at, c.generated;
        ds := ds + [c];
      }
      k := k + 1;
    }
  }

  method RequestTgi(start: real, chunks: seq<Chunk>) returns (o: Output)
    ensures var k := Handled(Tgi, chunks);
      var ds := DataOf(chunks[..k], false);
      && o.ttft == Ttft(Again(ds), start) && o.itl == Gaps(At(ds), Lead(Again(ds), start))
      && o.latency == (if k < |chunks| then 0.0 else LastOr(At(ds), start) - start)
      && (o.success <==> k == |chunks| && EndsGenerated(ds))
      && (o.success ==> o.ttft + RealTotal(o.itl) == o.latency + Excess(Again(ds), At(ds), Lead(Again(ds), start)))
  {
    var k, ttft, itl, recent, generated := TgiLoop(start, chunks);
    if k < |chunks| {
      return Output(false, 0.0, ttft, itl);
    }
    ghost var ds := DataOf(chunks[..k], false);
    MeterExcess(Again(ds), At(ds), start, ttft, itl, recent);
    o := Output(generated, recent - start, ttft, itl);
  }

  method TrtLlmLoop(start: real, chunks: seq<Chunk>) returns (k: nat, ttft: real, itl: seq<real>, recent: real)
    ensures k == Handled(TrtLlm, chunks)
    ensures var times := At(DataOf(chunks[..k], false)); Metered(times, times, start, ttft, itl, recent)
  {
    ttft, itl, recent := 0.0, [], start;
    k := 0;
    ghost var ds := [];
    while k < |chunks| && !Raises(TrtLlm, chunks[k])
      invariant k <= Handled(TrtLlm, chunks) && ds == DataOf(chunks[..k], false)
      invariant Metered(At(ds), At(ds), start, ttft, itl, recent)
    {
      DataNext(chunks, k, false);
      var c := chunks[k];
      if c.Data? {
        ttft, itl := MeasureToken(start, ttft, itl, recent, c, false, ds);
        recent := c.at;
        ds := ds + [c];
      }
      k := k + 1;
    }
  }

  method RequestTrtLlm(start: real, chunks: seq<Chunk>) returns (o: Output)
    ensures var k := Handled(TrtLlm, chunks);
      var times := At(DataOf(chunks[..k], false));
      && o.ttft == Ttft(times, start) && o.itl == Gaps(times, Lead(times, start))
      && o.latency == (if k < |chunks| then 0.0 else LastOr(times, start) - start)
      && (o.success <==> k == |chunks|)
      && (o.success ==> o.ttft + RealTotal(o.itl) == o.latency)
  {
    var k, ttft, itl, recent := TrtLlmLoop(start, chunks);
    if k < |chunks| {
      return Output(false, 0.0, ttft, itl);
    }
    ghost var times := At(DataOf(chunks[..k], false));
    MeterExcess(times, times, start, ttft, itl, recent);
    o := Output(true, recent - start, ttft, itl);
  }

  /** The meter of the completions loop, where a flag marks the first token, so that a time of zero is
      no exception. */
  ghost predicate Flagged(marks: seq<real>, times: seq<real>, start: real, received: bool, ttft: real, itl: seq<real>,
                          recent: real) {
    && |marks| == |times| && (received <==> marks != []) && ttft == (if marks == [] then 0.0 else marks[0] - start)
    && itl == Gaps(times, 0) && recent == LastOr(times, start)
  }

  lemma {:induction false} FlagExcess(marks: seq<real>, times: seq<real>, start: real, received: bool, ttft: real,
                                      itl: seq<real>, recent: real)
    requires Flagged(marks, times, start, received, ttft, itl, recent)
    ensures ttft + RealTotal(itl) == recent - start + Excess(marks, times, 0)
  {
    if times != [] { GapsTelescope(times, 0); }
  }

  method MeasureChoice(start: real, received: bool, ttft: real, itl: seq<real>, recent: real, c: Chunk,
                       ghost ds: seq<Chunk>)
    returns (ttft': real, itl': seq<real>)
    requires c.Data? && forall i :: 0 <= i < |ds| ==> ds[i].Data?
    requires Flagged(Again(ds), At(ds), start, received, ttft, itl, recent)
    ensures Flagged(Again(ds + [c]), At(ds + [c]), start, true, ttft', itl', c.at)
  {
    ReadingsNext(ds, c);
    GapsNext(At(ds), c.at, 0);
    if !received {
      ttft', itl' := c.again - start, itl;
    } else {
      ttft', itl' := ttft, itl + [c.at - recent];
    }
  }

  method RequestCompletions(start: real, chunks: seq<Chunk>) returns (o: Output)
    ensures var k := Handled(Completions, chunks);
      var ds := DataOf(chunks[..k], true);
      && o.ttft == (if ds == [] then 0.0 else Again(ds)[0] - start) && o.itl == Gaps(At(ds), 0)
      && o.latency == (if k < |chunks| then 0.0 else LastOr(At(ds), start) - start)
      && (o.success <==> k == |chunks| && ds != [])
      && (o.success ==> o.ttft + RealTotal(o.itl) == o.latency + Excess(Again(ds), At(ds), 0))
  {
    var k, ttft, itl, recent, received := CompletionsLoop(start, chunks);
    if k < |chunks| {
      return Output(false, 0.0, ttft, itl);
    }
    ghost var ds := DataOf(chunks[..k], true);
    FlagExcess(Again(ds), At(ds), start, received, ttft, itl, recent);
    o := Output(received, recent - start, ttft, itl);
  }

  method CompletionsLoop(start: real, chunks: seq<Chunk>)
    returns (k: nat, ttft: real, itl: seq<real>, recent: real, received: bool)
    ensures k == Handled(Completions, chunks)
    ensures var ds := DataOf(chunks[..k], true); Flagged(Again(ds), At(ds), start, received, ttft, itl, recent)
  {
    ttft, itl, recent, received := 0.0, [], start, false;
    k := 0;
    ghost var ds := [];
    while k < |chunks| && !Raises(Completions, chunks[k])
      invariant k <= Handled(Completions, chunks) && ds == DataOf(chunks[..k], true)
      invariant Flagged(Again(ds), At(ds), start, received, ttft, itl, recent)
    {
      DataNext(chunks, k, true);
      var c := chunks[k];
      if c.Data? && c.choices {
        ttft, itl := MeasureChoice(start, received, ttft, itl, recent, c, ds);
        received, recent := true, c.at;
        ds := ds + [c];
      }
      k := k + 1;
    }
  }

  // ---------------------------------------------------------------- the chat loop

  /** The first token of the chat loop: with choices, and not at the start itself. */
  predicate IsToken(c: Chunk, start: real) { c.Data? && c.choices && c.at != start }

  function FirstToken(ds: seq<Chunk>, start: real): (k: nat)
    ensures k <= |ds| && (k < |ds| ==> IsToken(ds[k], start)) && forall i :: 0 <= i < k ==> !IsToken(ds[i], start)
  {
    if ds == [] then 0
    else
      var n := |ds| - 1;
      var k := FirstToken(ds[..n], start);
      if k < n then k else if IsToken(ds[n], start) then n else n + 1
  }

  /** The gaps that end at data chunks after the first token, of those with or of those without choices. */
  function ChatGaps(ds: seq<Chunk>, f: nat, choices: bool): seq<real>
    requires forall i :: 0 <= i < |ds| ==> ds[i].Data?
  {
    if |ds| <= f + 1 then []
    else
      var n := |ds| - 1;
      ChatGaps(ds[..n], f, choices) + if ds[n].choices == choices then [ds[n].at - ds[n - 1].at] else []
  }

  ghost predicate ChatMetered(ds: seq<Chunk>, start: real, ttft: real, itl: seq<real>, recent: real) {
    && (forall i :: 0 <= i < |ds| ==> ds[i].Data?)
    && var f := FirstToken(ds, start);
    && ttft == (if f < |ds| then ds[f].at - start else 0.0)
    && itl == ChatGaps(ds, f, true) && recent == LastOr(At(ds), start)
  }

  method MeasureChat(start: real, ttft: real, itl: seq<real>, recent: real, c: Chunk, ghost ds: seq<Chunk>)
    returns (ttft': real, itl': seq<real>)
    requires c.Data? && ChatMetered(ds, start, ttft, itl, recent)
    ensures ChatMetered(ds + [c], start, ttft', itl', c.at)
  {
    assert (ds + [c])[..|ds|] == ds;
    ReadingsNext(ds, c);
    ttft', itl' := ttft, itl;
    if c.choices {
      if ttft == 0.0 {
        ttft' := c.at - start;
      } else {
        itl' := itl + [c.at - recent];
      }
    }
  }

  lemma {:induction false} ChatGapsLast(ds: seq<Chunk>, f: nat, choices: bool)
    requires f + 1 < |ds| && forall i :: 0 <= i < |ds| ==> ds[i].Data?
    ensures var n := |ds| - 1;
      RealTotal(ChatGaps(ds, f, choices)) == RealTotal(ChatGaps(ds[..n], f, choices)) +
        if ds[n].choices == choices then ds[n].at - ds[n - 1].at else 0.0
  {
    var n := |ds| - 1;
    TotalIf(ChatGaps(ds[..n], f, choices), ds[n].at - ds[n - 1].at, ds[n].choices == choices);
  }

  lemma {:induction false} TotalIf(gaps: seq<real>, gap: real, added: bool)
    ensures RealTotal(gaps + if added then [gap] else []) == RealTotal(gaps) + if added then gap else 0.0
  {
    RealTotalNext(gaps, gap);
    assert gaps + [] == gaps;
  }

  /** In the chat loop the gaps that end at chunks without choices are lost. */
  lemma {:induction false} ChatTelescope(ds: seq<Chunk>, f: nat)
    requires f < |ds| && forall i :: 0 <= i < |ds| ==> ds[i].Data?
    ensures RealTotal(ChatGaps(ds, f, true)) + RealTotal(ChatGaps(ds, f, false)) == ds[|ds| - 1].at - ds[f].at
  {
    if f + 1 < |ds| {
      var n := |ds| - 1;
      ChatTelescope(ds[..n], f);
      ChatGapsLast(ds, f, true);
      ChatGapsLast(ds, f, false);
    }
  }

  /** What of the latency the chat loop accounts for: nothing without a token, and otherwise all but
      the gaps that end at chunks without choices. */
  function Accounted(ds: seq<Chunk>, start: real, latency: real): real
    requires forall i :: 0 <= i < |ds| ==> ds[i].Data?
  {
    var f := FirstToken(ds, start);
    if f < |ds| then latency - RealTotal(ChatGaps(ds, f, false)) else 0.0
  }

  lemma {:induction false} ChatDeficit(ds: seq<Chunk>, start: real, ttft: real, itl: seq<real>, recent: real)
    requires ChatMetered(ds, start, ttft, itl, recent)
    ensures ttft + RealTotal(itl) == Accounted(ds, start, recent - start)
  {
    var f := FirstToken(ds, start);
    if f < |ds| { ChatTelescope(ds, f); }
  }

  method RequestChat(start: real, chunks: seq<Chunk>) returns (o: Output)
    ensures var k := Handled(Chat, chunks);
      var ds := DataOf(chunks[..k], false);
      && o.latency == (if k < |chunks| then 0.0 else LastOr(At(ds), start) - start)
      && (o.success <==> k == |chunks|)
      && ChatMetered(ds, start, o.ttft, o.itl, LastOr(At(ds), start))
      && (o.success ==> o.ttft + RealTotal(o.itl) == Accounted(ds, start, o.latency))
  {
    var k, ttft, itl, recent := ChatLoop(start, chunks);
    if k < |chunks| {
      return Output(false, 0.0, ttft, itl);
    }
    ChatDeficit(DataOf(chunks[..k], false), start, ttft, itl, recent);
    o := Output(true, recent - start, ttft, itl);
  }

  method ChatLoop(start: real, chunks: seq<Chunk>) returns (k: nat, ttft: real, itl: seq<real>, recent: real)
    ensures k == Handled(Chat, chunks) && ChatMetered(DataOf(chunks[..k], false), start, ttft, itl, recent)
  {
    ttft, itl, recent := 0.0, [], start;
    k := 0;
    ghost var ds := [];
    while k < |chunks| && !Raises(Chat, chunks[k])
      invariant k <= Handled(Chat, chunks) && ds == DataOf(chunks[..k], false) &&
        ChatMetered(ds, start, ttft, itl, recent)
    {
      DataNext(chunks, k, false);
      var c := chunks[k];
      if c.Data? {
        ttft, itl := MeasureChat(start, ttft, itl, recent, c, ds);
        recent := c.at;
        ds := ds + [c];
      }
      k := k + 1;
    }
  }

  /** Every reading of the clock is later than the one before. */
  predicate Ticks(times: seq<real>, start: real) {
    (times != [] ==> start < times[0]) && forall i, j :: 0 <= i < j < |times| ==> times[i] < times[j]
  }

  /** With a strictly increasing clock the chat loop accounts for the whole latency exactly when every
      data chunk after the first token has choices, and there is a first token or no data at all; the
      usage chunk that closes a stream has none. */
  lemma {:induction false} ChatExactIff(ds: seq<Chunk>, start: real, ttft: real, itl: seq<real>, recent: real)
    requires ChatMetered(ds, start, ttft, itl, recent) && Ticks(At(ds), start)
    ensures ttft + RealTotal(itl) <= recent - start
    ensures ttft + RealTotal(itl) == recent - start <==>
      var f := FirstToken(ds, start); (f < |ds| || ds == []) && forall i :: f < i < |ds| ==> ds[i].choices
  {
    var f := FirstToken(ds, start);
    ChatDeficit(ds, start, ttft, itl, recent);
    assert ds != [] ==> start < At(ds)[0] && (|ds| > 1 ==> At(ds)[0] < At(ds)[|ds| - 1]);
    if f < |ds| { LostPositive(ds, f, start); }
  }

  /** A token at the start itself leaves the time to first token zero, so that the next one sets it. */
  lemma {:induction false} TokenAtStart(ds: seq<Chunk>, at: real)
    requires at > 0.0 && ds == [Data(0.0, 0.0, true, true), Data(at, at, true, true)]
    ensures ChatMetered(ds, 0.0, at, [], at)
  {
    assert ds[..1] == [Data(0.0, 0.0, true, true)] && ds[..1][..0] == [];
  }

  /** One token after a second and the usage chunk two seconds later: two of three seconds are lost. */
  lemma UsageChunkLoses()
    ensures var ds := [Data(1.0, 1.0, true, true), Data(3.0, 3.0, false, true)];
      ChatMetered(ds, 0.0, 1.0, [], 3.0) && 1.0 + RealTotal([]) == 1.0 < 3.0 - 0.0
  {
    var token, usage := Data(1.0, 1.0, true, true), Data(3.0, 3.0, false, true);
    TokenThenUsage([token, usage], token, usage);
  }

  lemma {:induction false} TokenThenUsage(ds: seq<Chunk>, token: Chunk, usage: Chunk)
    requires ds == [token, usage] && token.Data? && usage.Data? && IsToken(token, 0.0) && !usage.choices
    ensures FirstToken(ds, 0.0) == 0 && ChatGaps(ds, 0, true) == []
  {
    assert ds[..1] == [token];
  }

  ghost predicate AllTokens(ds: seq<Chunk>, f: nat)
    requires forall i :: 0 <= i < |ds| ==> ds[i].Data?
  {
    forall i :: f < i < |ds| ==> ds[i].choices
  }

  lemma AllTokensLast(ds: seq<Chunk>, f: nat)
    requires f + 1 < |ds| && forall i :: 0 <= i < |ds| ==> ds[i].Data?
    ensures AllTokens(ds, f) <==> AllTokens(ds[..|ds| - 1], f) && ds[|ds| - 1].choices
  {
    var n := |ds| - 1;
    if AllTokens(ds[..n], f) && ds[n].choices {
      forall i | f < i < |ds| ensures ds[i].choices {
        if i < n { assert ds[..n][i].choices; }
      }
    }
  }

  lemma {:induction false} LostPositive(ds: seq<Chunk>, f: nat, start: real)
    requires f < |ds| && (forall i :: 0 <= i < |ds| ==> ds[i].Data?) && Ticks(At(ds), start)
    ensures RealTotal(ChatGaps(ds, f, false)) >= 0.0
    ensures RealTotal(ChatGaps(ds, f, false)) == 0.0 <==> AllTokens(ds, f)
  {
    if f + 1 < |ds| {
      var n := |ds| - 1;
      TicksLast(ds, start);
      LostPositive(ds[..n], f, start);
      ChatGapsLast(ds, f, false);
      AllTokensLast(ds, f);
    }
  }

  lemma TicksLast(ds: seq<Chunk>, start: real)
    requires |ds| > 1 && (forall i :: 0 <= i < |ds| ==> ds[i].Data?) && Ticks(At(ds), start)
    ensures ds[|ds| - 2].at < ds[|ds| - 1].at && Ticks(At(ds[..|ds| - 1]), start)
  {
    var n := |ds| - 1;
    assert At(ds)[n - 1] < At(ds)[n] && At(ds[..n]) == At(ds)[..n];
  }

  lemma {:induction false} GapsPerToken(times: seq<real>, f: nat)
    requires f < |times|
    ensures |Gaps(times, f)| == |times| - 1 - f
    ensures forall i :: 0 <= i < |Gaps(times, f)| ==> Gaps(times, f)[i] == times[f + 1 + i] - times[f + i]
  {
    if f + 1 < |times| {
      var n := |times| - 1;
      GapsPerToken(times[..n], f);
      LastGap(times, times[..n], f, Gaps(times[..n], f), times[n] - times[n - 1]);
    }
  }

  lemma LastGap(times: seq<real>, before: seq<real>, f: nat, gaps: seq<real>, gap: real)
    requires f + 1 < |times| && before == times[..|times| - 1] && |gaps| == |before| - 1 - f
    requires forall i :: 0 <= i < |gaps| ==> gaps[i] == before[f + 1 + i] - before[f + i]
    requires gap == times[|times| - 1] - times[|times| - 2]
    ensures forall i :: 0 <= i < |gaps| + 1 ==> (gaps + [gap])[i] == times[f + 1 + i] - times[f + i]
  {}

  /** With a strictly increasing clock the time to first token is that of the first token, and there is
      one inter-token latency for every other token, each the time since the token before. */
  lemma {:induction false} OneGapPerToken(times: seq<real>, start: real)
    requires Ticks(times, start) && times != []
    ensures var itl := Gaps(times, Lead(times, start));
      && Ttft(times, start) == times[0] - start && |itl| == |times| - 1
      && forall i :: 0 <= i < |itl| ==> itl[i] == times[i + 1] - times[i]
  {
    assert start < times[0];
    assert Lead(times, start) == 0;
    GapsPerToken(times, 0);
  }
}
