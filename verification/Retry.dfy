/** Downloads that are retried with back-off (rps-serve/vllm/connections.py): the retry wrapper
    around download_file, with the file it writes and cleans up. */
module Retry {
  import opened Sums
  import opened Wrappers

  /** Errors, by the families the retry decision tells apart. Escape stands for what is no Exception:
      a cancelled task, a keyboard interrupt. */
  datatype Exc = Timeout | Connection | HttpError(status: Option<int>) | ResponseError(code: int) | OtherError | Escape

  predicate IsRetryable(e: Exc) {
    match e
    case Timeout => true
    case Connection => true
    case HttpError(status) => status.Some? && status.value >= 500
    case ResponseError(code) => code >= 500
    case _ => false
  }

  type Bytes = seq<int>

  /** What one attempt meets: an error before the file is opened, or a stream of chunks written to
      the opened file, which ends well or in an error. */
  datatype Fetch = Fails(exc: Exc) | Streams(chunks: seq<Bytes>, end: Option<Exc>)

  /** unlink is the error of removing the file, if that is tried and fails. */
  datatype Attempt = Attempt(fetch: Fetch, unlink: Option<Exc>)

  /** What the attempts meet, by number; one without an entry streams an empty body. */
  type World = imap<nat, Attempt>

  function Met(world: World, i: nat): Attempt { if i in world then world[i] else Attempt(Streams([], None), None) }

  datatype Result = Returned | Raised(exc: Exc) | AssertionFailed

  type Files = map<string, Bytes>

  function Join(chunks: seq<Bytes>): Bytes {
    if chunks == [] then [] else Join(chunks[..|chunks| - 1]) + chunks[|chunks| - 1]
  }

  function Without(files: Files, path: string): Files { map p | p in files && p != path :: files[p] }

  function Error(fetch: Fetch): Option<Exc> {
    match fetch case Fails(exc) => Some(exc) case Streams(_, end) => end
  }

  /** The files when the attempt has returned or raised, before any cleaning up. */
  function Written(files: Files, path: string, fetch: Fetch): Files {
    match fetch case Fails(_) => files case Streams(chunks, _) => files[path := Join(chunks)]
  }

  predicate Cleans(files: Files, path: string, a: Attempt) {
    Error(a.fetch).Some? && Error(a.fetch) != Some(Escape) && path in Written(files, path, a.fetch)
  }

  function FilesAfter(files: Files, path: string, a: Attempt): Files {
    var written := Written(files, path, a.fetch);
    if Cleans(files, path, a) && a.unlink.None? then Without(written, path) else written
  }

  function ResultOf(files: Files, path: string, a: Attempt): Result {
    if Error(a.fetch).None? then Returned
    else if Cleans(files, path, a) && a.unlink.Some? then Raised(a.unlink.value)
    else Raised(Error(a.fetch).value)
  }

  /** The files after the first k attempts. */
  ghost function FilesAt(files: Files, path: string, world: World, k: nat): Files {
    if k == 0 then files else FilesAfter(FilesAt(files, path, world, k - 1), path, Met(world, k - 1))
  }

  ghost function ResultAt(files: Files, path: string, world: World, k: nat): Result {
    ResultOf(FilesAt(files, path, world, k), path, Met(world, k))
  }

  predicate Retries(r: Result) { r.Raised? && IsRetryable(r.exc) }

  /** The wrapper goes on after attempt i. */
  ghost predicate Retried(files: Files, path: string, world: World, i: nat) {
    Retries(ResultAt(files, path, world, i))
  }

  /** The wrapper stops after attempt k - 1: every earlier one ended in a retryable error, and this
      one did not or was the last. */
  ghost predicate StopsAfter(files: Files, path: string, world: World, most: nat, k: nat) {
    && 1 <= k <= most
    && (forall i: nat :: i < k - 1 ==> Retried(files, path, world, i))
    && (k == most || !Retried(files, path, world, k - 1))
  }

  function Pow4(n: nat): nat { if n == 0 then 1 else 4 * Pow4(n - 1) }

  /** The timeout of attempt i. */
  function Scaled(base: Option<real>, i: nat): Option<real> {
    if base.Some? then Some(base.value * Pow4(i) as real) else None
  }

  /** Every timeout is four times the one before, beginning with the base, and so is every sleep,
      beginning with one second. */
  predicate Grows(timeouts: seq<Option<real>>, base: Option<real>) {
    forall i :: 0 <= i < |timeouts| ==> timeouts[i] == Scaled(base, i)
  }

  predicate BacksOff(sleeps: seq<nat>) { forall i :: 0 <= i < |sleeps| ==> sleeps[i] == Pow4(i) }

  lemma GrowsNext(timeouts: seq<Option<real>>, base: Option<real>)
    requires Grows(timeouts, base)
    ensures Grows(timeouts + [Scaled(base, |timeouts|)], base)
  {}

  lemma {:induction false} BacksOffNext(sleeps: seq<nat>)
    requires BacksOff(sleeps)
    ensures BacksOff(sleeps + [Pow4(|sleeps|)])
  {}

  class HttpConnection {
    var files: Files
    var timeouts: seq<Option<real>>
    var sleeps: seq<nat>

    constructor (files: Files)
      ensures this.files == files && timeouts == [] && sleeps == []
    {
      this.files, timeouts, sleeps := files, [], [];
    }

    /** Writes the chunks to the file, one after the other. */
    method WriteChunks(path: string, chunks: seq<Bytes>)
      modifies this`files
      ensures files == old(files)[path := Join(chunks)]
    {
      files := files[path := []];
      for i := 0 to |chunks|
        invariant files == old(files)[path := Join(chunks[..i])]
      {
        assert chunks[..i + 1][..i] == chunks[..i];
        files := files[path := files[path] + chunks[i]];
      }
      assert chunks[..|chunks|] == chunks;
    }

    /** One attempt: an error removes the file on its way out, unless it is no Exception. */
    method DownloadFile(path: string, a: Attempt) returns (r: Result)
      modifies this`files
      ensures files == FilesAfter(old(files), path, a)
      ensures r == ResultOf(old(files), path, a)
    {
      var raised: Option<Exc>;
      match a.fetch {
        case Fails(exc) => raised := Some(exc);
        case Streams(chunks, end) =>
          WriteChunks(path, chunks);
          raised := end;
      }
      if raised.None? {
        return Returned;
      }
      if raised.value != Escape && path in files {
        if a.unlink.Some? {
          return Raised(a.unlink.value);
        }
        files := map p | p in files && p != path :: files[p];
      }
      return Raised(raised.value);
    }

    method Attempt(path: string, world: World, i: nat, ghost first: Files) returns (r: Result)
      requires files == FilesAt(first, path, world, i)
      modifies this`files
      ensures files == FilesAt(first, path, world, i + 1) && r == ResultAt(first, path, world, i)
      ensures Retried(first, path, world, i) <==> Retries(r)
      ensures r != AssertionFailed
    {
      r := DownloadFile(path, Met(world, i));
    }

    method Retry(path: string, world: World, baseTimeout: Option<real>, retries: int)
      returns (r: Result, ghost k: nat)
      requires timeouts == [] && sleeps == []
      modifies this
      ensures StopsAfter(old(files), path, world, if retries > 1 then retries else 1, k)
      ensures files == FilesAt(old(files), path, world, k) && r == ResultAt(old(files), path, world, k - 1)
      ensures r != AssertionFailed
      ensures |timeouts| == k && Grows(timeouts, baseTimeout)
      ensures |sleeps| == k - 1 && BacksOff(sleeps)
    {
      var maxRetries := if retries > 1 then retries else 1;
      var attempt := 0;
      while attempt < maxRetries
        invariant 0 <= attempt < maxRetries
        invariant files == FilesAt(old(files), path, world, attempt)
        invariant forall i: nat :: i < attempt ==> Retried(old(files), path, world, i)
        invariant |timeouts| == attempt && Grows(timeouts, baseTimeout)
        invariant |sleeps| == attempt && BacksOff(sleeps)
      {
        k := attempt + 1;
        GrowsNext(timeouts, baseTimeout);
        timeouts := timeouts + [Scaled(baseTimeout, attempt)];
        r := Attempt(path, world, attempt, old(files));
        if r.Returned? {
          return;
        }
        if !IsRetryable(r.exc) || attempt + 1 >= maxRetries {
          return;
        }
        BacksOffNext(sleeps);
        sleeps := sleeps + [Pow4(attempt)];
        attempt := attempt + 1;
      }
      r := AssertionFailed;
    }
  }

  // ---------------------------------------------------------------- what a run leaves behind

  /** The number of attempts is determined. */
  lemma StopsOnce(files: Files, path: string, world: World, most: nat, k: nat, j: nat)
    requires StopsAfter(files, path, world, most, k) && StopsAfter(files, path, world, most, j)
    ensures k == j
  {
    assert Retried(files, path, world, k - 1) || !Retried(files, path, world, k - 1);
    assert Retried(files, path, world, j - 1) || !Retried(files, path, world, j - 1);
  }

  /** Joining chunks keeps their order. */
  lemma {:induction false} JoinAppends(a: seq<Bytes>, b: seq<Bytes>)
    ensures Join(a + b) == Join(a) + Join(b)
  {
    if b == [] {
      assert a + b == a;
    } else {
      var before, last := b[..|b| - 1], b[|b| - 1];
      JoinAppends(a, before);
      JoinNext(a + before, last);
      JoinNext(before, last);
      assert a + b == (a + before) + [last] && b == before + [last];
    }
  }

  lemma {:induction false} JoinNext(chunks: seq<Bytes>, c: Bytes)
    ensures Join(chunks + [c]) == Join(chunks) + c
  {
    assert (chunks + [c])[..|chunks|] == chunks;
  }

  lemma JoinOne(c: Bytes)
    ensures Join([c]) == c
  {
    assert [c][..0] == [];
  }

  function Lengths(chunks: seq<Bytes>): seq<nat> { seq(|chunks|, i requires 0 <= i < |chunks| => |chunks[i]|) }

  lemma {:induction false} JoinLength(chunks: seq<Bytes>)
    ensures |Join(chunks)| == Total(Lengths(chunks))
  {
    if chunks != [] {
      var n := |chunks| - 1;
      JoinLength(chunks[..n]);
      assert Lengths(chunks)[..n] == Lengths(chunks[..n]);
    }
  }

  /** Byte p of chunk n stands behind all bytes of the chunks before it. */
  lemma {:induction false} BytePlace(chunks: seq<Bytes>, n: nat, p: nat)
    requires n < |chunks| && p < |chunks[n]|
    ensures var at := Total(Lengths(chunks[..n])) + p; at < |Join(chunks)| && Join(chunks)[at] == chunks[n][p]
  {
    var before, after := chunks[..n], chunks[n + 1..];
    assert chunks == before + ([chunks[n]] + after);
    JoinAppends(before, [chunks[n]] + after);
    JoinAppends([chunks[n]], after);
    JoinOne(chunks[n]);
    JoinLength(before);
  }

  /** A return leaves exactly the body that the last attempt streamed: as long as all its chunks, and with
      every byte of every chunk in its place. */
  lemma {:induction false} ReturnLeavesBody(files: Files, path: string, world: World, k: nat)
    requires k > 0 && ResultAt(files, path, world, k - 1) == Returned
    ensures Met(world, k - 1).fetch.Streams? && Met(world, k - 1).fetch.end.None?
    ensures path in FilesAt(files, path, world, k)
    ensures var body, chunks := FilesAt(files, path, world, k)[path], Met(world, k - 1).fetch.chunks;
      && body == Join(chunks) && |body| == Total(Lengths(chunks))
      && forall n, p :: 0 <= n < |chunks| && 0 <= p < |chunks[n]| ==> StandsAt(body, chunks, n, p)
  {
    var body, chunks := FilesAt(files, path, world, k)[path], Met(world, k - 1).fetch.chunks;
    JoinLength(chunks);
    forall n, p | 0 <= n < |chunks| && 0 <= p < |chunks[n]| ensures StandsAt(body, chunks, n, p) {
      BytePlace(chunks, n, p);
    }
  }

  ghost predicate StandsAt(body: Bytes, chunks: seq<Bytes>, n: nat, p: nat)
    requires n < |chunks| && p < |chunks[n]|
  {
    var at := Total(Lengths(chunks[..n])) + p;
    at < |body| && body[at] == chunks[n][p]
  }

  /** The error that is raised is the last attempt's own, unless removing the file failed as well. */
  lemma {:induction false} RaisesOwn(files: Files, path: string, world: World, k: nat, e: Exc)
    requires k > 0 && Met(world, k - 1).unlink.None?
    requires var a := Met(world, k - 1); a.fetch == Fails(e) || (a.fetch.Streams? && a.fetch.end == Some(e))
    ensures ResultAt(files, path, world, k - 1) == Raised(e)
  {}

  /** If removing the file fails, that error is raised in place of the attempt's own. */
  lemma {:induction false} RaisesUnlink(files: Files, path: string, world: World, k: nat, e: Exc, u: Exc)
    requires Met(world, k).unlink == Some(u) && e != Escape
    ensures Met(world, k).fetch.Streams? && Met(world, k).fetch.end == Some(e) ==>
      ResultAt(files, path, world, k) == Raised(u)
    ensures Met(world, k).fetch == Fails(e) ==>
      ResultAt(files, path, world, k) == Raised(if path in FilesAt(files, path, world, k) then u else e)
  {}

  /** Two chunks, in their order; and which errors at the boundary are tried again. */
  lemma RetryExamples(path: string)
    ensures FilesAfter(map[], path, Attempt(Streams([[1], [2]], None), None)) == map[path := [1, 2]]
    ensures Retries(Raised(HttpError(Some(500)))) && Retries(Raised(ResponseError(503))) && Retries(Raised(Timeout))
    ensures Retries(Raised(Connection)) && !Retries(Raised(HttpError(Some(499)))) && !Retries(Raised(HttpError(None)))
    ensures !Retries(Raised(ResponseError(404))) && !Retries(Raised(OtherError)) && !Retries(Raised(Escape))
    ensures !Retries(Returned)
  {
    JoinAppends([[1]], [[2]]);
    JoinOne([1]);
    JoinOne([2]);
    assert [[1]] + [[2]] == [[1], [2]] && [1] + [2] == [1, 2];
  }

  /** The other files are never touched. */
  lemma {:induction false} OthersUntouched(files: Files, path: string, world: World, k: nat)
    ensures Without(FilesAt(files, path, world, k), path) == Without(files, path)
  {
    if k > 0 {
      OthersUntouched(files, path, world, k - 1);
      var before := FilesAt(files, path, world, k - 1);
      assert Without(FilesAfter(before, path, Met(world, k - 1)), path) == Without(before, path);
    }
  }

  /** After k attempts that were all retried, the file is still there: since some attempt no removal has
      worked, and that attempt had written the file, or it was the first and found it. */
  ghost predicate Lingers(files: Files, path: string, world: World, k: nat) {
    exists j: nat :: LingersFrom(files, path, world, k, j)
  }

  predicate CannotRemove(world: World, i: nat) { Met(world, i).unlink.Some? }

  ghost predicate LingersFrom(files: Files, path: string, world: World, k: nat, j: nat) {
    && j <= k && (forall i: nat :: j <= i < k ==> CannotRemove(world, i))
    && ((j < k && Met(world, j).fetch.Streams?) || (j == 0 && path in files))
  }

  lemma {:induction false} LingersExact(files: Files, path: string, world: World, k: nat)
    requires forall i: nat :: i < k ==> Retried(files, path, world, i)
    ensures path in FilesAt(files, path, world, k) <==> Lingers(files, path, world, k)
  {
    if k == 0 {
      assert path in files ==> LingersFrom(files, path, world, 0, 0);
    } else {
      LingersExact(files, path, world, k - 1);
      LingersNext(files, path, world, k - 1);
      assert Retried(files, path, world, k - 1);
    }
  }

  lemma LingersNext(files: Files, path: string, world: World, k: nat)
    ensures Lingers(files, path, world, k + 1) <==>
      Met(world, k).unlink.Some? && (Met(world, k).fetch.Streams? || Lingers(files, path, world, k))
  {
    var n := k + 1;
    if j: nat :| LingersFrom(files, path, world, n, j) {
      if j <= k {
        assert CannotRemove(world, k);
        assert Met(world, k).fetch.Streams? || LingersFrom(files, path, world, k, j);
      }
    }
    if Met(world, k).unlink.Some? {
      if Met(world, k).fetch.Streams? {
        assert LingersFrom(files, path, world, n, k);
      } else if j: nat :| LingersFrom(files, path, world, k, j) {
        assert LingersFrom(files, path, world, n, j);
      }
    }
  }

  /** A run that raises leaves no file exactly when: its last attempt was stopped by something other than
      an Exception before it opened the file, and no file lingered; or it ended in an Exception, and could
      remove the file or had failed before opening it with none lingering. */
  lemma {:induction false} RaiseLeavesNoFileIff(files: Files, path: string, world: World, most: nat, k: nat)
    requires StopsAfter(files, path, world, most, k) && ResultAt(files, path, world, k - 1).Raised?
    ensures path !in FilesAt(files, path, world, k) <==>
      var a := Met(world, k - 1);
      || (a.fetch.Fails? && !Lingers(files, path, world, k - 1))
      || (Error(a.fetch) != Some(Escape) && a.unlink.None?)
  {
    LingersExact(files, path, world, k - 1);
    LastLeaves(files, path, world, k, Met(world, k - 1), Lingers(files, path, world, k - 1));
  }

  lemma LastLeaves(files: Files, path: string, world: World, k: nat, a: Attempt, lingers: bool)
    requires k > 0 && a == Met(world, k - 1) && ResultAt(files, path, world, k - 1).Raised?
    requires path in FilesAt(files, path, world, k - 1) <==> lingers
    ensures path !in FilesAt(files, path, world, k) <==>
      || (a.fetch.Fails? && !lingers)
      || (Error(a.fetch) != Some(Escape) && a.unlink.None?)
  {
    AttemptLeaves(FilesAt(files, path, world, k - 1), path, a);
  }

  lemma AttemptLeaves(files: Files, path: string, a: Attempt)
    requires ResultOf(files, path, a).Raised?
    ensures path !in FilesAfter(files, path, a) <==>
      || (a.fetch.Fails? && path !in files)
      || (Error(a.fetch) != Some(Escape) && a.unlink.None?)
  {}

  /** A file lingers only if the removal after the attempt before failed: one removal that works is enough. */
  lemma {:induction false} RemovedDoesNotLinger(files: Files, path: string, world: World, most: nat, k: nat)
    requires StopsAfter(files, path, world, most, k) && k > 1 && Met(world, k - 2).unlink.None?
    ensures path !in FilesAt(files, path, world, k - 1) && !Lingers(files, path, world, k - 1)
  {
    LingersNext(files, path, world, k - 2);
    LingersExact(files, path, world, k - 1);
  }

  /** So where files can be removed and nothing but Exceptions is raised, no raise leaves a file. */
  predicate Orderly(a: Attempt) { Error(a.fetch) != Some(Escape) && a.unlink.None? }

  lemma {:induction false} NoFileOrBody(files: Files, path: string, world: World, most: nat, k: nat)
    requires StopsAfter(files, path, world, most, k) && Orderly(Met(world, k - 1))
    ensures match ResultAt(files, path, world, k - 1)
      case Returned => FilesAt(files, path, world, k) ==
        Without(files, path)[path := Join(Met(world, k - 1).fetch.chunks)]
      case Raised(_) => FilesAt(files, path, world, k) == Without(files, path)
      case AssertionFailed => false
  {
    OthersUntouched(files, path, world, k);
    var after := FilesAt(files, path, world, k);
    assert after == if path in after then Without(after, path)[path := after[path]] else Without(after, path);
  }

  /** A cancelled download leaves the part it had written. */
  lemma {:induction false} CancelledLeavesPart(path: string)
    ensures exists world: World ::
      StopsAfter(map[], path, world, 3, 1) && FilesAt(map[], path, world, 1) == map[path := [7]]
  {
    var world: World := imap[0 := Attempt(Streams([[7]], Some(Escape)), None)];
    assert [[7]][..0] == [] && Join([[7]]) == [7];
    assert FilesAt(map[], path, world, 0) == map[];
    assert ResultAt(map[], path, world, 0) == Raised(Escape);
    assert StopsAfter(map[], path, world, 3, 1);
  }

  // ---------------------------------------------------------------- how long it takes

  /** k attempts sleep (4^(k-1) - 1) / 3 seconds in all. */
  lemma {:induction false} SleepTotal(sleeps: seq<nat>)
    requires forall i :: 0 <= i < |sleeps| ==> sleeps[i] == Pow4(i)
    ensures 3 * Total(sleeps) == Pow4(|sleeps|) - 1
    ensures Total(sleeps) == (Pow4(|sleeps|) - 1) / 3
  {
    if sleeps != [] { SleepTotal(sleeps[..|sleeps| - 1]); }
  }

  ghost function TotalTimeout(timeouts: seq<Option<real>>): real {
    if timeouts == [] then 0.0
    else
      var last := timeouts[|timeouts| - 1];
      TotalTimeout(timeouts[..|timeouts| - 1]) + if last.Some? then last.value else 0.0
  }

  /** With a base timeout, k attempts are given (4^k - 1) / 3 times the base in all: the growing
      timeouts are all scaled from the one given, not from one another. */
  lemma {:induction false} TimeoutTotal(timeouts: seq<Option<real>>, base: real)
    requires forall i :: 0 <= i < |timeouts| ==> timeouts[i] == Scaled(Some(base), i)
    ensures 3.0 * TotalTimeout(timeouts) == base * (Pow4(|timeouts|) - 1) as real
  {
    if timeouts != [] {
      var n := |timeouts| - 1;
      TimeoutTotal(timeouts[..n], base);
      assert timeouts[n] == Scaled(Some(base), n);
      assert Pow4(n + 1) == 4 * Pow4(n);
      ScaledSum(base, Pow4(n));
    }
  }

  lemma ScaledSum(base: real, p: int)
    ensures base * (p - 1) as real + 3.0 * (base * p as real) == base * (4 * p - 1) as real
  {
    var x := p as real;
    assert (p - 1) as real == x - 1.0 && (4 * p - 1) as real == 4.0 * x - 1.0;
  }
}
