/** The encoder load balancer and the fan-out that gates the prefill/decode step
    (experiments/mod-serve-proxy.py), as steps of concurrent tasks on one event loop. */
module EncoderProxy {
  import opened Sums
  import opened Wrappers

  type Url = string

  // ---------------------------------------------------------------- the multimodal items of a request

  datatype Part = Part(kind: string, payload: string)

  /** The content of one message: absent, plain text, or a list of parts. */
  datatype Content = NoContent | Text(text: string) | Parts(parts: seq<Part>)

  predicate IsMultimodal(p: Part) { p.kind == "image_url" || p.kind == "audio_url" || p.kind == "input_audio" }

  function Keep(parts: seq<Part>): seq<Part> {
    if parts == [] then []
    else Keep(parts[..|parts| - 1]) + if IsMultimodal(parts[|parts| - 1]) then [parts[|parts| - 1]] else []
  }

  /** All parts of all messages, in order. */
  function Flatten(messages: seq<Content>): seq<Part> {
    if messages == [] then []
    else
      var last := messages[|messages| - 1];
      Flatten(messages[..|messages| - 1]) + if last.Parts? then last.parts else []
  }

  lemma {:induction false} KeepJoin(a: seq<Part>, b: seq<Part>)
    ensures Keep(a + b) == Keep(a) + Keep(b)
  {
    if b == [] {
      assert a + b == a;
    } else {
      var n := |b| - 1;
      assert (a + b)[..|a + b| - 1] == a + b[..n];
      KeepJoin(a, b[..n]);
    }
  }

  lemma {:induction false} KeepNext(a: seq<Part>, p: Part)
    ensures Keep(a + [p]) == Keep(a) + if IsMultimodal(p) then [p] else []
  {
    assert (a + [p])[..|a|] == a;
  }

  lemma KeepOne(p: Part)
    ensures Keep([p]) == if p.kind in {"image_url", "audio_url", "input_audio"} then [p] else []
  {
    assert [p][..0] == [];
  }

  /** Taking the parts of several messages together is taking them message by message. */
  lemma {:induction false} FlattenJoin(a: seq<Content>, b: seq<Content>)
    ensures Flatten(a + b) == Flatten(a) + Flatten(b)
  {
    if b == [] {
      assert a + b == a;
    } else {
      var n := |b| - 1;
      assert (a + b)[..|a + b| - 1] == a + b[..n];
      FlattenJoin(a, b[..n]);
    }
  }

  lemma FlattenOne(content: Content)
    ensures Flatten([content]) == match content case Parts(parts) => parts case _ => []
  {
    assert [content][..0] == [];
  }

  /** The items of a conversation are those of its first messages and then those of the others; a single
      part is an item exactly if its type is one of three; text has none. */
  lemma {:induction false} ItemsJoin(a: seq<Content>, parts: seq<Part>, p: Part, b: seq<Content>, text: string)
    ensures Keep(Flatten(a + b)) == Keep(Flatten(a)) + Keep(Flatten(b))
    ensures Keep(Flatten([Parts(parts + [p])])) ==
      Keep(Flatten([Parts(parts)])) + if p.kind in {"image_url", "audio_url", "input_audio"} then [p] else []
    ensures Keep(Flatten([Text(text)])) == Keep(Flatten([NoContent])) == Keep(Flatten([Parts([])])) == []
  {
    FlattenJoin(a, b);
    KeepJoin(Flatten(a), Flatten(b));
    FlattenOne(Parts(parts + [p]));
    FlattenOne(Parts(parts));
    KeepJoin(parts, [p]);
    KeepOne(p);
    FlattenOne(Text(text));
    FlattenOne(NoContent);
    FlattenOne(Parts([]));
  }

  /** The items are exactly the multimodal parts of all messages, in order. */
  method ExtractMmItems(messages: seq<Content>) returns (items: seq<Part>)
    ensures items == Keep(Flatten(messages))
  {
    items := [];
    for m := 0 to |messages|
      invariant items == Keep(Flatten(messages[..m]))
    {
      var content := messages[m];
      assert messages[..m + 1][..m] == messages[..m];
      if !content.Parts? {
        assert Flatten(messages[..m]) + [] == Flatten(messages[..m]);
        continue;
      }
      items := AppendItems(items, content.parts, Flatten(messages[..m]));
    }
    assert messages[..|messages|] == messages;
  }

  /** The multimodal parts of one message. */
  method AppendItems(items: seq<Part>, parts: seq<Part>, ghost before: seq<Part>) returns (r: seq<Part>)
    requires items == Keep(before)
    ensures r == Keep(before + parts)
  {
    r := items;
    assert before + [] == before;
    for i := 0 to |parts|
      invariant r == Keep(before + parts[..i])
    {
      KeepNext(before + parts[..i], parts[i]);
      assert before + parts[..i + 1] == before + parts[..i] + [parts[i]];
      if IsMultimodal(parts[i]) {
        r := r + [parts[i]];
      }
    }
    assert parts[..|parts|] == parts;
  }

  // ---------------------------------------------------------------- picking and releasing encoders

  function Load(inflight: map<Url, int>, u: Url): int { if u in inflight then inflight[u] else 0 }

  /** The first URL of the list with the least load. */
  function LeastLoaded(inflight: map<Url, int>, urls: seq<Url>): (u: Url)
    requires urls != []
    ensures u in urls && forall v :: v in urls ==> Load(inflight, u) <= Load(inflight, v)
  {
    if |urls| == 1 then urls[0]
    else
      var best, last := LeastLoaded(inflight, urls[..|urls| - 1]), urls[|urls| - 1];
      assert forall v :: v in urls ==> v in urls[..|urls| - 1] || v == last;
      if Load(inflight, last) < Load(inflight, best) then last else best
  }

  /** The URL at k has the least load, and every one before it has more. */
  ghost predicate FirstLeast(inflight: map<Url, int>, urls: seq<Url>, k: nat) {
    && k < |urls|
    && (forall j :: 0 <= j < |urls| ==> Load(inflight, urls[k]) <= Load(inflight, urls[j]))
    && (forall j :: 0 <= j < k ==> Load(inflight, urls[k]) < Load(inflight, urls[j]))
  }

  /** Among equally loaded URLs the first of the list is taken. */
  lemma {:induction false} LeastLoadedFirst(inflight: map<Url, int>, urls: seq<Url>) returns (k: nat)
    requires urls != []
    ensures FirstLeast(inflight, urls, k) && urls[k] == LeastLoaded(inflight, urls)
  {
    var n := |urls| - 1;
    if n == 0 {
      k := 0;
    } else {
      k := LeastLoadedFirst(inflight, urls[..n]);
      LastOrBest(inflight, urls, urls[..n], urls[n]);
      FirstLeastNext(inflight, urls, urls[..n], k);
      if Load(inflight, urls[n]) < Load(inflight, urls[k]) { k := n; }
    }
  }

  lemma FirstLeastNext(inflight: map<Url, int>, urls: seq<Url>, before: seq<Url>, k: nat)
    requires |urls| > 1 && before == urls[..|urls| - 1] && FirstLeast(inflight, before, k)
    ensures var last := |before|;
      FirstLeast(inflight, urls, if Load(inflight, urls[last]) < Load(inflight, before[k]) then last else k)
  {
    assert forall j :: 0 <= j < |before| ==> urls[j] == before[j];
  }

  lemma {:induction false} LastOrBest(inflight: map<Url, int>, urls: seq<Url>, before: seq<Url>, last: Url)
    requires |urls| > 1 && before == urls[..|urls| - 1] && last == urls[|urls| - 1]
    ensures var best := LeastLoaded(inflight, before);
      LeastLoaded(inflight, urls) == if Load(inflight, last) < Load(inflight, best) then last else best
  {}

  class EncoderPool {
    var inflight: map<Url, int>

    constructor ()
      ensures inflight == map[]
    {
      inflight := map[];
    }

    /** No URL at all is an error; otherwise the least loaded encoder is charged one request. */
    method Pick(urls: seq<Url>) returns (url: Url, ok: bool)
      modifies this
      ensures ok <==> urls != []
      ensures ok ==> url == LeastLoaded(old(inflight), urls) && inflight == Charge(old(inflight), url)
      ensures ok ==> forall v :: v in urls ==> old(Load(inflight, url)) <= old(Load(inflight, v))
      ensures ok ==> Load(inflight, url) == old(Load(inflight, url)) + 1
      ensures !ok ==> inflight == old(inflight)
    {
      if urls == [] {
        return "", false;
      }
      url, ok := urls[0], true;
      for i := 1 to |urls|
        invariant url == LeastLoaded(inflight, urls[..i])
      {
        assert urls[..i + 1][..i] == urls[..i];
        if Load(inflight, urls[i]) < Load(inflight, url) {
          url := urls[i];
        }
      }
      assert urls[..|urls|] == urls;
      inflight := inflight[url := Load(inflight, url) + 1];
    }

    method Release(url: Url)
      modifies this
      ensures inflight == Discharge(old(inflight), url)
      ensures old(Load(inflight, url)) > 0 ==> Load(inflight, url) == old(Load(inflight, url)) - 1
      ensures forall v :: v != url ==> Load(inflight, v) == old(Load(inflight, v))
    {
      var c := Load(inflight, url) - 1;
      inflight := inflight[url := if c > 0 then c else 0];
    }
  }

  function Charge(inflight: map<Url, int>, url: Url): map<Url, int> { inflight[url := Load(inflight, url) + 1] }

  function Discharge(inflight: map<Url, int>, url: Url): map<Url, int> {
    inflight[url := if Load(inflight, url) - 1 > 0 then Load(inflight, url) - 1 else 0]
  }

  // ---------------------------------------------------------------- loads add up

  ghost predicate DistinctUrls(us: seq<Url>) { forall i, j :: 0 <= i < j < |us| ==> us[i] != us[j] }

  /** us lists each encoder of urls once. */
  ghost predicate Enumerates(us: seq<Url>, urls: seq<Url>) {
    DistinctUrls(us) && forall u :: u in us <==> u in urls
  }

  ghost function TotalLoad(inflight: map<Url, int>, us: seq<Url>): int {
    if us == [] then 0 else TotalLoad(inflight, us[..|us| - 1]) + Load(inflight, us[|us| - 1])
  }

  lemma {:induction false} TotalLoadUpdate(a: map<Url, int>, b: map<Url, int>, us: seq<Url>, u: Url)
    requires DistinctUrls(us) && forall v :: v != u ==> Load(a, v) == Load(b, v)
    ensures TotalLoad(b, us) == TotalLoad(a, us) + if u in us then Load(b, u) - Load(a, u) else 0
  {
    if us != [] { TotalLoadUpdate(a, b, us[..|us| - 1], u); }
  }

  lemma {:induction false} TotalLoadAtLeast(a: map<Url, int>, us: seq<Url>, c: int)
    requires forall v :: v in us ==> Load(a, v) >= c
    ensures TotalLoad(a, us) >= |us| * c
  {
    if us != [] { TotalLoadAtLeast(a, us[..|us| - 1], c); }
  }

  function CeilDiv(k: int, n: int): int requires n > 0 { (k + n - 1) / n }

  /** A pick never lifts an encoder above the even share of what is then in flight. */
  lemma {:induction false} PickWithinShare(inflight: map<Url, int>, urls: seq<Url>, us: seq<Url>, k: int)
    requires urls != [] && Enumerates(us, urls) && TotalLoad(inflight, us) + 1 <= k
    ensures |us| > 0 && Load(inflight, LeastLoaded(inflight, urls)) + 1 <= CeilDiv(k, |us|)
  {
    var c := Load(inflight, LeastLoaded(inflight, urls));
    assert urls[0] in us;
    TotalLoadAtLeast(inflight, us, c);
    ShareBound(c, |us|, k);
  }

  lemma MulMonotone(a: int, b: int, n: int)
    requires n >= 0
    ensures a <= b ==> a * n <= b * n
  {}

  lemma ShareBound(c: int, n: int, k: int)
    requires n > 0 && n * c + 1 <= k
    ensures c + 1 <= CeilDiv(k, n)
  {
    var q := CeilDiv(k, n);
    assert q * n + (k + n - 1) % n == k + n - 1;
    assert q * n >= k >= n * c + 1;
    MulMonotone(q, c, n);
  }

  // ---------------------------------------------------------------- picks with no release

  ghost function PickTimes(urls: seq<Url>, k: nat): map<Url, int>
    requires urls != []
  {
    if k == 0 then map[] else var m := PickTimes(urls, k - 1); Charge(m, LeastLoaded(m, urls))
  }

  /** Picks from zero with no release keep any two encoders within one request of each other, so
      each has an even share, rounded down or up. */
  lemma {:induction false} PicksBalanced(urls: seq<Url>, us: seq<Url>, k: nat)
    requires urls != [] && Enumerates(us, urls)
    ensures var m := PickTimes(urls, k);
      && TotalLoad(m, us) == k
      && (forall u, v :: u in urls && v in urls ==> Load(m, u) <= Load(m, v) + 1)
      && (forall u :: u in urls ==> k / |us| <= Load(m, u) <= CeilDiv(k, |us|))
  {
    var m := PickTimes(urls, k);
    assert urls[0] in us;
    if k == 0 {
      NoLoad(us);
    } else {
      var before := PickTimes(urls, k - 1);
      PicksBalanced(urls, us, k - 1);
      TotalLoadUpdate(before, m, us, LeastLoaded(before, urls));
    }
    EvenShares(m, us, k);
  }

  lemma {:induction false} EvenShares(m: map<Url, int>, us: seq<Url>, k: nat)
    requires us != [] && TotalLoad(m, us) == k && DistinctUrls(us)
    requires forall v, w :: v in us && w in us ==> Load(m, v) <= Load(m, w) + 1
    ensures forall u :: u in us ==> k / |us| <= Load(m, u) <= CeilDiv(k, |us|)
  {
    forall u | u in us ensures k / |us| <= Load(m, u) <= CeilDiv(k, |us|) {
      EvenShare(m, us, u, k);
    }
  }

  lemma {:induction false} NoLoad(us: seq<Url>)
    ensures TotalLoad(map[], us) == 0
  {
    if us != [] { NoLoad(us[..|us| - 1]); }
  }

  lemma {:induction false} TotalLoadAtMost(a: map<Url, int>, us: seq<Url>, c: int)
    requires forall v :: v in us ==> Load(a, v) <= c
    ensures TotalLoad(a, us) <= |us| * c
  {
    if us != [] { TotalLoadAtMost(a, us[..|us| - 1], c); }
  }

  lemma {:induction false} EvenShare(m: map<Url, int>, us: seq<Url>, u: Url, k: nat)
    requires u in us && TotalLoad(m, us) == k && DistinctUrls(us)
    requires forall v, w :: v in us && w in us ==> Load(m, v) <= Load(m, w) + 1
    ensures k / |us| <= Load(m, u) <= CeilDiv(k, |us|)
  {
    var c := Load(m, u);
    var lower := m[u := c - 1];
    var upper := m[u := c + 1];
    TotalLoadUpdate(m, lower, us, u);
    TotalLoadUpdate(m, upper, us, u);
    TotalLoadAtLeast(lower, us, c - 1);
    TotalLoadAtMost(upper, us, c + 1);
    ShareBound(c - 1, |us|, k);
    ShareFloor(c, |us|, k);
  }

  lemma ShareFloor(c: int, n: int, k: nat)
    requires n > 0 && k + 1 <= n * (c + 1)
    ensures k / n <= c
  {
    var q := k / n;
    assert q * n <= k;
    MulMonotone(c + 1, q, n);
  }

  // ---------------------------------------------------------------- the protocol

  /** How an item's task ends: with its post answered, failed or cancelled, or cancelled before its post.
      A cancellation is not an Exception, so it is not counted as a failure. */
  datatype PostResult = Success | Failure | Cancelled | Unsent

  /** One item's task. It ends without a post when there is no encoder to pick, or when it is cancelled
      before its first step or before its post. */
  datatype Task =
    | Waiting
    | Picked(url: Url)
    | Posted(url: Url)
    | Answered(url: Url, answer: PostResult)
    | Closed(answer: PostResult)
    | NoEncoder

  datatype Phase = Priming | Forwarded | Rejected

  datatype Request = Request(items: seq<Part>, tasks: seq<Task>, addr: Url, phase: Phase)

  datatype Post = Post(req: nat, idx: nat, item: Part, url: Url)

  /** count is the round-robin counter; posts lists every request sent to an encoder. */
  datatype State = State(inflight: map<Url, int>, count: nat, reqs: seq<Request>, posts: seq<Post>)

  datatype Config = Config(encoders: seq<Url>, servers: seq<Url>)

  datatype Step =
    | Arrive(messages: seq<Content>)
    | Pick(r: nat, i: nat)
    | Send(r: nat, i: nat)
    | Answer(r: nat, i: nat, result: PostResult)
    | Release(r: nat, i: nat)
    | Cancel(r: nat, i: nat)
    | Gather(r: nat)

  const INIT := State(map[], 0, [], [])

  function TaskAt(s: State, r: nat, i: nat): Task {
    if r < |s.reqs| && i < |s.reqs[r].tasks| then s.reqs[r].tasks[i] else NoEncoder
  }

  function SetTask(reqs: seq<Request>, r: nat, i: nat, t: Task): seq<Request>
    requires r < |reqs| && i < |reqs[r].tasks|
  {
    reqs[r := reqs[r].(tasks := reqs[r].tasks[i := t])]
  }

  predicate Ended(t: Task) { t.Closed? || t.NoEncoder? }

  /** The errors that gather collects: exceptions, which a cancellation is not. */
  predicate IsError(t: Task) { t == Closed(Failure) || t.NoEncoder? }

  function Waits(n: nat): seq<Task> { seq(n, _ => Waiting) }

  predicate Enabled(s: State, step: Step) {
    match step
    case Arrive(_) => true
    case Pick(r, i) => TaskAt(s, r, i).Waiting?
    case Send(r, i) => TaskAt(s, r, i).Picked? && i < |s.reqs[r].items|
    case Answer(r, i, result) => TaskAt(s, r, i).Posted? && result != Unsent
    case Release(r, i) => TaskAt(s, r, i).Answered?
    case Cancel(r, i) => TaskAt(s, r, i).Waiting? || TaskAt(s, r, i).Picked?
    case Gather(r) => r < |s.reqs| && s.reqs[r].phase.Priming? && forall t :: t in s.reqs[r].tasks ==> Ended(t)
  }

  function Next(c: Config, s: State, step: Step): State
    requires Enabled(s, step)
  {
    match step
    case Arrive(messages) =>
      if c.servers == [] then s.(reqs := s.reqs + [Request([], [], "", Rejected)])
      else
        var items := Keep(Flatten(messages));
        s.(count := s.count + 1,
           reqs := s.reqs + [Request(items, Waits(|items|), c.servers[s.count % |c.servers|], Priming)])
    case Pick(r, i) =>
      if c.encoders == [] then s.(reqs := SetTask(s.reqs, r, i, NoEncoder))
      else
        var url := LeastLoaded(s.inflight, c.encoders);
        s.(inflight := Charge(s.inflight, url), reqs := SetTask(s.reqs, r, i, Picked(url)))
    case Send(r, i) =>
      var url := s.reqs[r].tasks[i].url;
      s.(posts := s.posts + [Post(r, i, s.reqs[r].items[i], url)], reqs := SetTask(s.reqs, r, i, Posted(url)))
    case Answer(r, i, result) =>
      s.(reqs := SetTask(s.reqs, r, i, Answered(s.reqs[r].tasks[i].url, result)))
    case Release(r, i) =>
      var t := s.reqs[r].tasks[i];
      s.(inflight := Discharge(s.inflight, t.url), reqs := SetTask(s.reqs, r, i, Closed(t.answer)))
    case Cancel(r, i) =>
      var t := s.reqs[r].tasks[i];
      s.(reqs := SetTask(s.reqs, r, i, if t.Waiting? then Closed(Unsent) else Answered(t.url, Unsent)))
    case Gather(r) =>
      var failed := exists t :: t in s.reqs[r].tasks && IsError(t);
      s.(reqs := s.reqs[r := s.reqs[r].(phase := if failed then Rejected else Forwarded)])
  }

  /** The state that the steps lead to from the initial one, if each is enabled in its turn. */
  function After(c: Config, steps: seq<Step>): Option<State> {
    if steps == [] then Some(INIT)
    else
      var p, step := After(c, steps[..|steps| - 1]), steps[|steps| - 1];
      if p.Some? && Enabled(p.value, step) then Some(Next(c, p.value, step)) else None
  }

  ghost predicate Run(c: Config, steps: seq<Step>, s: State) { After(c, steps) == Some(s) }

  // ---------------------------------------------------------------- counting tasks

  /** The task is charged to encoder u. */
  predicate Holds(t: Task, u: Url) { (t.Picked? || t.Posted? || t.Answered?) && t.url == u }

  ghost function HeldBy(tasks: seq<Task>, u: Url): nat {
    if tasks == [] then 0 else HeldBy(tasks[..|tasks| - 1], u) + if Holds(tasks[|tasks| - 1], u) then 1 else 0
  }

  /** How many tasks of all requests have picked u and not released it. */
  ghost function Held(reqs: seq<Request>, u: Url): nat {
    if reqs == [] then 0 else Held(reqs[..|reqs| - 1], u) + HeldBy(reqs[|reqs| - 1].tasks, u)
  }

  function Bit(b: bool): nat { if b then 1 else 0 }

  lemma {:induction false} HeldByUpdate(tasks: seq<Task>, i: nat, t: Task, u: Url)
    requires i < |tasks|
    ensures HeldBy(tasks[i := t], u) == HeldBy(tasks, u) - Bit(Holds(tasks[i], u)) + Bit(Holds(t, u))
  {
    var n := |tasks| - 1;
    if i < n {
      HeldByUpdate(tasks[..n], i, t, u);
      assert tasks[i := t][..n] == tasks[..n][i := t];
    } else {
      assert tasks[i := t][..n] == tasks[..n];
    }
  }

  lemma {:induction false} HeldReplace(reqs: seq<Request>, r: nat, q: Request, u: Url)
    requires r < |reqs|
    ensures Held(reqs[r := q], u) == Held(reqs, u) - HeldBy(reqs[r].tasks, u) + HeldBy(q.tasks, u)
  {
    var n := |reqs| - 1;
    if r < n {
      HeldReplace(reqs[..n], r, q, u);
      assert reqs[r := q][..n] == reqs[..n][r := q];
    } else {
      assert reqs[r := q][..n] == reqs[..n];
    }
  }

  lemma {:induction false} HeldSet(reqs: seq<Request>, r: nat, i: nat, t: Task, u: Url)
    requires r < |reqs| && i < |reqs[r].tasks|
    ensures Held(SetTask(reqs, r, i, t), u) == Held(reqs, u) - Bit(Holds(reqs[r].tasks[i], u)) + Bit(Holds(t, u))
  {
    HeldByUpdate(reqs[r].tasks, i, t, u);
    HeldReplace(reqs, r, reqs[r].(tasks := reqs[r].tasks[i := t]), u);
  }

  lemma {:induction false} HeldByNone(tasks: seq<Task>, u: Url)
    requires forall t :: t in tasks ==> !Holds(t, u)
    ensures HeldBy(tasks, u) == 0
  {
    if tasks != [] {
      assert tasks[|tasks| - 1] in tasks;
      HeldByNone(tasks[..|tasks| - 1], u);
    }
  }

  lemma {:induction false} HeldAppend(reqs: seq<Request>, q: Request, u: Url)
    ensures Held(reqs + [q], u) == Held(reqs, u) + HeldBy(q.tasks, u)
  {
    assert (reqs + [q])[..|reqs|] == reqs;
  }

  // ---------------------------------------------------------------- counters are exact

  /** Every counter is the number of tasks that hold the encoder. */
  ghost predicate Exact(s: State) {
    forall u :: Load(s.inflight, u) == Held(s.reqs, u)
  }

  lemma {:induction false} HoldsPositive(reqs: seq<Request>, r: nat, i: nat, u: Url)
    requires r < |reqs| && i < |reqs[r].tasks| && Holds(reqs[r].tasks[i], u)
    ensures Held(reqs, u) >= 1
  {
    HeldSet(reqs, r, i, NoEncoder, u);
  }

  lemma {:induction false} ExactRelease(c: Config, s: State, r: nat, i: nat, u: Url)
    requires Load(s.inflight, u) == Held(s.reqs, u) && Enabled(s, Release(r, i))
    ensures Load(Next(c, s, Release(r, i)).inflight, u) == Held(Next(c, s, Release(r, i)).reqs, u)
  {
    var t := s.reqs[r].tasks[i];
    HeldSet(s.reqs, r, i, Closed(t.answer), u);
    if t.url == u { HoldsPositive(s.reqs, r, i, u); }
  }

  lemma {:induction false} ExactPick(c: Config, s: State, r: nat, i: nat, u: Url)
    requires Load(s.inflight, u) == Held(s.reqs, u) && Enabled(s, Pick(r, i))
    ensures Load(Next(c, s, Pick(r, i)).inflight, u) == Held(Next(c, s, Pick(r, i)).reqs, u)
  {
    HeldSet(s.reqs, r, i, Next(c, s, Pick(r, i)).reqs[r].tasks[i], u);
  }

  lemma {:induction false} ExactFor(c: Config, s: State, step: Step, u: Url)
    requires Load(s.inflight, u) == Held(s.reqs, u) && Enabled(s, step)
    ensures Load(Next(c, s, step).inflight, u) == Held(Next(c, s, step).reqs, u)
  {
    match step
    case Arrive(_) =>
      var q := Next(c, s, step).reqs[|s.reqs|];
      HeldByNone(q.tasks, u);
      HeldAppend(s.reqs, q, u);
    case Gather(r) => HeldReplace(s.reqs, r, Next(c, s, step).reqs[r], u);
    case Pick(r, i) => ExactPick(c, s, r, i, u);
    case Send(r, i) => HeldSet(s.reqs, r, i, Posted(s.reqs[r].tasks[i].url), u);
    case Answer(r, i, answer) => HeldSet(s.reqs, r, i, Answered(s.reqs[r].tasks[i].url, answer), u);
    case Cancel(r, i) => HeldSet(s.reqs, r, i, Next(c, s, step).reqs[r].tasks[i], u);
    case Release(r, i) => ExactRelease(c, s, r, i, u);
  }

  lemma ExactStep(c: Config, s: State, step: Step)
    requires Exact(s) && Enabled(s, step)
    ensures Exact(Next(c, s, step))
  {
    forall u ensures Load(Next(c, s, step).inflight, u) == Held(Next(c, s, step).reqs, u) {
      ExactFor(c, s, step, u);
    }
  }

  /** A task that is about to release its encoder is counted there. */
  lemma ReleaseCounted(s: State, r: nat, i: nat)
    requires Exact(s) && Enabled(s, Release(r, i))
    ensures Load(s.inflight, s.reqs[r].tasks[i].url) >= 1
  {
    HoldsPositive(s.reqs, r, i, s.reqs[r].tasks[i].url);
  }

  /** In every reachable state each counter is the number of tasks that picked the encoder and have
      not released it. */
  lemma {:induction false} CountersExact(c: Config, steps: seq<Step>, s: State)
    requires Run(c, steps, s)
    ensures Exact(s)
  {
    if steps != [] {
      var p := After(c, steps[..|steps| - 1]).value;
      CountersExact(c, steps[..|steps| - 1], p);
      ExactStep(c, p, steps[|steps| - 1]);
    }
  }

  /** The clamp at zero never changes a value, and the counters return to zero when all tasks ended. */
  lemma ClampIdle(c: Config, steps: seq<Step>, s: State, step: Step)
    requires Run(c, steps, s) && Enabled(s, step) && step.Release?
    ensures var u := s.reqs[step.r].tasks[step.i].url; Load(Next(c, s, step).inflight, u) == Load(s.inflight, u) - 1
  {
    CountersExact(c, steps, s);
    ReleaseCounted(s, step.r, step.i);
  }

  lemma {:induction false} HeldNone(reqs: seq<Request>, u: Url)
    requires forall q :: q in reqs ==> forall t :: t in q.tasks ==> Ended(t)
    ensures Held(reqs, u) == 0
  {
    if reqs != [] {
      assert reqs[|reqs| - 1] in reqs;
      HeldNone(reqs[..|reqs| - 1], u);
      HeldByNone(reqs[|reqs| - 1].tasks, u);
    }
  }

  lemma DrainedIsZero(c: Config, steps: seq<Step>, s: State, u: Url)
    requires Run(c, steps, s)
    requires forall q :: q in s.reqs ==> forall t :: t in q.tasks ==> Ended(t)
    ensures Load(s.inflight, u) == 0
  {
    CountersExact(c, steps, s);
    HeldNone(s.reqs, u);
  }

  // ---------------------------------------------------------------- peak load

  predicate Busy(t: Task) { !Ended(t) && !t.Waiting? }

  ghost function BusyTasks(tasks: seq<Task>): nat {
    if tasks == [] then 0
    else BusyTasks(tasks[..|tasks| - 1]) + Bit(Busy(tasks[|tasks| - 1]))
  }

  /** How many items are in flight: picked and not yet released. */
  ghost function InFlight(reqs: seq<Request>): nat {
    if reqs == [] then 0 else InFlight(reqs[..|reqs| - 1]) + BusyTasks(reqs[|reqs| - 1].tasks)
  }

  lemma {:induction false} BusyUpdate(tasks: seq<Task>, i: nat, t: Task)
    requires i < |tasks|
    ensures BusyTasks(tasks[i := t]) == BusyTasks(tasks) - Bit(Busy(tasks[i])) + Bit(Busy(t))
  {
    var n := |tasks| - 1;
    if i < n {
      BusyUpdate(tasks[..n], i, t);
      assert tasks[i := t][..n] == tasks[..n][i := t];
    } else {
      assert tasks[i := t][..n] == tasks[..n];
    }
  }

  lemma {:induction false} InFlightReplace(reqs: seq<Request>, r: nat, q: Request)
    requires r < |reqs|
    ensures InFlight(reqs[r := q]) == InFlight(reqs) - BusyTasks(reqs[r].tasks) + BusyTasks(q.tasks)
  {
    var n := |reqs| - 1;
    if r < n {
      InFlightReplace(reqs[..n], r, q);
      assert reqs[r := q][..n] == reqs[..n][r := q];
    } else {
      assert reqs[r := q][..n] == reqs[..n];
    }
  }

  lemma {:induction false} InFlightSet(reqs: seq<Request>, r: nat, i: nat, t: Task)
    requires r < |reqs| && i < |reqs[r].tasks|
    ensures InFlight(SetTask(reqs, r, i, t)) == InFlight(reqs) - Bit(Busy(reqs[r].tasks[i])) + Bit(Busy(t))
  {
    BusyUpdate(reqs[r].tasks, i, t);
    InFlightReplace(reqs, r, reqs[r].(tasks := reqs[r].tasks[i := t]));
  }

  lemma {:induction false} BusyNone(tasks: seq<Task>)
    requires forall t :: t in tasks ==> !Busy(t)
    ensures BusyTasks(tasks) == 0
  {
    if tasks != [] {
      assert tasks[|tasks| - 1] in tasks;
      BusyNone(tasks[..|tasks| - 1]);
    }
  }

  /** The counters of the encoders together count the items in flight. */
  ghost predicate Totalled(c: Config, us: seq<Url>, s: State) {
    TotalLoad(s.inflight, us) == InFlight(s.reqs) && Known(c, s)
  }

  /** Items in flight are at encoders of the configuration. */
  ghost predicate Known(c: Config, s: State) {
    forall r, i :: 0 <= r < |s.reqs| && 0 <= i < |s.reqs[r].tasks| && Busy(s.reqs[r].tasks[i]) ==>
      s.reqs[r].tasks[i].url in c.encoders
  }

  lemma KnownStep(c: Config, s: State, step: Step)
    requires Known(c, s) && Enabled(s, step)
    ensures Known(c, Next(c, s, step))
  {}

  lemma {:induction false} TotalledStep(c: Config, us: seq<Url>, s: State, step: Step)
    requires Enumerates(us, c.encoders) && Totalled(c, us, s) && Exact(s) && Enabled(s, step)
    ensures TotalLoad(Next(c, s, step).inflight, us) == InFlight(Next(c, s, step).reqs)
  {
    match step
    case Arrive(_) => TotalledArrive(c, s, step);
    case Pick(r, i) => TotalledPick(c, us, s, r, i);
    case Release(r, i) => TotalledRelease(c, us, s, r, i);
    case _ => InFlightKept(c, s, step);
  }

  lemma TotalledArrive(c: Config, s: State, step: Step)
    requires Enabled(s, step) && step.Arrive?
    ensures InFlight(Next(c, s, step).reqs) == InFlight(s.reqs)
  {
    var reqs := Next(c, s, step).reqs;
    BusyNone(reqs[|s.reqs|].tasks);
    assert reqs[..|s.reqs|] == s.reqs;
  }

  /** Sending, answering, cancelling and gathering leave the number of items in flight as it is. */
  lemma InFlightKept(c: Config, s: State, step: Step)
    requires Enabled(s, step) && !step.Arrive? && !step.Pick? && !step.Release?
    ensures InFlight(Next(c, s, step).reqs) == InFlight(s.reqs) && Next(c, s, step).inflight == s.inflight
  {
    var q := Next(c, s, step).reqs[step.r];
    if step.Gather? {
      InFlightReplace(s.reqs, step.r, q);
    } else {
      InFlightSet(s.reqs, step.r, step.i, q.tasks[step.i]);
    }
  }

  lemma {:induction false} TotalledRelease(c: Config, us: seq<Url>, s: State, r: nat, i: nat)
    requires Enumerates(us, c.encoders) && Totalled(c, us, s) && Exact(s) && Enabled(s, Release(r, i))
    ensures TotalLoad(Next(c, s, Release(r, i)).inflight, us) == InFlight(Next(c, s, Release(r, i)).reqs)
  {
    var s' := Next(c, s, Release(r, i));
    ReleaseCounted(s, r, i);
    InFlightSet(s.reqs, r, i, s'.reqs[r].tasks[i]);
    TotalLoadUpdate(s.inflight, s'.inflight, us, s.reqs[r].tasks[i].url);
  }

  lemma {:induction false} TotalledPick(c: Config, us: seq<Url>, s: State, r: nat, i: nat)
    requires Enumerates(us, c.encoders) && Enabled(s, Pick(r, i)) && TotalLoad(s.inflight, us) == InFlight(s.reqs)
    ensures TotalLoad(Next(c, s, Pick(r, i)).inflight, us) == InFlight(Next(c, s, Pick(r, i)).reqs)
  {
    var s' := Next(c, s, Pick(r, i));
    InFlightSet(s.reqs, r, i, s'.reqs[r].tasks[i]);
    if c.encoders != [] { TotalLoadUpdate(s.inflight, s'.inflight, us, LeastLoaded(s.inflight, c.encoders)); }
  }

  /** No more than k items are in flight in any state the steps pass through. */
  ghost predicate AtMost(c: Config, steps: seq<Step>, k: int) {
    && (After(c, steps).Some? ==> InFlight(After(c, steps).value.reqs) <= k)
    && (steps != [] ==> AtMost(c, steps[..|steps| - 1], k))
  }

  ghost predicate Within(c: Config, s: State, k: int) {
    forall u :: u in c.encoders ==> Load(s.inflight, u) <= k
  }

  lemma {:induction false} WithinStep(c: Config, us: seq<Url>, s: State, step: Step, k: nat)
    requires Enumerates(us, c.encoders) && |us| > 0 && TotalLoad(s.inflight, us) == InFlight(s.reqs) && Enabled(s, step)
    requires Within(c, s, CeilDiv(k, |us|)) && InFlight(Next(c, s, step).reqs) <= k
    ensures Within(c, Next(c, s, step), CeilDiv(k, |us|))
  {
    if step.Pick? && c.encoders != [] {
      InFlightSet(s.reqs, step.r, step.i, Next(c, s, step).reqs[step.r].tasks[step.i]);
      PickWithinShare(s.inflight, c.encoders, us, k);
    } else {
      ShareBound(-1, |us|, k);
    }
  }

  /** If at most k items are ever in flight, no encoder's counter exceeds the even share of k. */
  lemma {:induction false} PeakBound(c: Config, us: seq<Url>, steps: seq<Step>, s: State, k: nat)
    requires Run(c, steps, s) && Enumerates(us, c.encoders) && AtMost(c, steps, k)
    ensures Totalled(c, us, s)
    ensures |us| > 0 ==> Within(c, s, CeilDiv(k, |us|))
  {
    if steps == [] {
      NoLoad(us);
      if |us| > 0 { ShareBound(-1, |us|, k); }
    } else {
      var before, step := steps[..|steps| - 1], steps[|steps| - 1];
      var p := After(c, before).value;
      PeakBound(c, us, before, p, k);
      CountersExact(c, before, p);
      TotalledStep(c, us, p, step);
      KnownStep(c, p, step);
      if |us| > 0 { WithinStep(c, us, p, step, k); }
    }
  }

  // ---------------------------------------------------------------- the barrier

  /** The item was posted. */
  predicate Sent(t: Task) { t.Posted? || ((t.Answered? || t.Closed?) && t.answer != Unsent) }

  /** How often item i of request r was posted. */
  ghost function Times(posts: seq<Post>, r: nat, i: nat): nat {
    if posts == [] then 0
    else Times(posts[..|posts| - 1], r, i) + Bit(posts[|posts| - 1].req == r && posts[|posts| - 1].idx == i)
  }

  lemma {:induction false} TimesNext(posts: seq<Post>, p: Post, r: nat, i: nat)
    ensures Times(posts + [p], r, i) == Times(posts, r, i) + Bit(p.req == r && p.idx == i)
  {
    assert (posts + [p])[..|posts|] == posts;
  }

  /** One task per item; what was posted is each sent item once, under its own request and index. */
  ghost predicate PostsExact(s: State) {
    && (forall r :: 0 <= r < |s.reqs| ==> |s.reqs[r].tasks| == |s.reqs[r].items|)
    && (forall r: nat, i: nat :: Times(s.posts, r, i) == Bit(Sent(TaskAt(s, r, i))))
    && (forall p :: p in s.posts ==>
         p.req < |s.reqs| && p.idx < |s.reqs[p.req].items| && p.item == s.reqs[p.req].items[p.idx])
  }

  /** A request is forwarded only when all its tasks have ended and none with an error. */
  ghost predicate Gated(s: State) {
    forall r, i :: 0 <= r < |s.reqs| && 0 <= i < |s.reqs[r].tasks| && s.reqs[r].phase.Forwarded? ==>
      Passed(s.reqs[r].tasks[i])
  }

  predicate Passed(t: Task) { t.Closed? && t.answer != Failure }

  lemma TaskAtSet(s: State, s': State, r: nat, i: nat, t: Task, q: nat, j: nat)
    requires r < |s.reqs| && i < |s.reqs[r].tasks| && s'.reqs == SetTask(s.reqs, r, i, t)
    ensures TaskAt(s', q, j) == if q == r && j == i then t else TaskAt(s, q, j)
  {}

  lemma {:induction false} TimesSend(c: Config, s: State, q: nat, j: nat, r: nat, i: nat)
    requires Enabled(s, Send(q, j)) && Times(s.posts, r, i) == Bit(Sent(TaskAt(s, r, i)))
    ensures Times(Next(c, s, Send(q, j)).posts, r, i) == Bit(Sent(TaskAt(Next(c, s, Send(q, j)), r, i)))
  {
    var s', url := Next(c, s, Send(q, j)), s.reqs[q].tasks[j].url;
    var p := Post(q, j, s.reqs[q].items[j], url);
    assert s'.posts == s.posts + [p];
    TimesNext(s.posts, p, r, i);
    TaskAtSet(s, s', q, j, Posted(url), r, i);
  }

  /** Only sending changes whether an item was posted. */
  lemma SentKept(c: Config, s: State, step: Step, r: nat, i: nat)
    requires Enabled(s, step) && !step.Send?
    ensures Sent(TaskAt(Next(c, s, step), r, i)) == Sent(TaskAt(s, r, i)) && Next(c, s, step).posts == s.posts
  {
    var s' := Next(c, s, step);
    if !step.Arrive? && !step.Gather? {
      var t := s'.reqs[step.r].tasks[step.i];
      assert s'.reqs == SetTask(s.reqs, step.r, step.i, t);
      TaskAtSet(s, s', step.r, step.i, t, r, i);
    }
  }

  lemma {:induction false} TimesStep(c: Config, s: State, step: Step, r: nat, i: nat)
    requires Enabled(s, step) && Times(s.posts, r, i) == Bit(Sent(TaskAt(s, r, i)))
    ensures Times(Next(c, s, step).posts, r, i) == Bit(Sent(TaskAt(Next(c, s, step), r, i)))
  {
    if step.Send? {
      TimesSend(c, s, step.r, step.i, r, i);
    } else {
      SentKept(c, s, step, r, i);
    }
  }

  lemma PostsExactStep(c: Config, s: State, step: Step)
    requires PostsExact(s) && Enabled(s, step)
    ensures PostsExact(Next(c, s, step))
  {
    var s' := Next(c, s, step);
    forall r: nat, i: nat ensures Times(s'.posts, r, i) == Bit(Sent(TaskAt(s', r, i))) {
      TimesStep(c, s, step, r, i);
    }
  }

  lemma GatedStep(c: Config, s: State, step: Step)
    requires Gated(s) && Enabled(s, step)
    ensures Gated(Next(c, s, step))
  {
    var s' := Next(c, s, step);
    forall r, i | 0 <= r < |s'.reqs| && 0 <= i < |s'.reqs[r].tasks| && s'.reqs[r].phase.Forwarded?
      ensures Passed(s'.reqs[r].tasks[i])
    {
      if step.Gather? && step.r == r { assert s.reqs[r].tasks[i] in s.reqs[r].tasks; }
    }
  }

  /** In every run each item is posted at most once, under its own request and index, and no task of a
      forwarded request ended in an error; so one failed post means no forward. */
  lemma {:induction false} BarrierSafe(c: Config, steps: seq<Step>, s: State)
    requires Run(c, steps, s)
    ensures PostsExact(s) && Gated(s)
  {
    if steps != [] {
      var p := After(c, steps[..|steps| - 1]).value;
      BarrierSafe(c, steps[..|steps| - 1], p);
      PostsExactStep(c, p, steps[|steps| - 1]);
      GatedStep(c, p, steps[|steps| - 1]);
    }
  }

  // ---------------------------------------------------------------- the barrier, by what happened

  /** What item i of request r was told in these steps: the outcome of its post, or to stop before it. */
  predicate Told(steps: seq<Step>, r: nat, i: nat, a: PostResult) {
    if a == Unsent then Cancel(r, i) in steps else Answer(r, i, a) in steps
  }

  predicate Carries(t: Task, a: PostResult) { (t.Answered? || t.Closed?) && t.answer == a }

  predicate InRange(s: State, r: nat, i: nat) { r < |s.reqs| && i < |s.reqs[r].tasks| }

  /** Every task carries what its item was told, and nothing else; it has no encoder exactly when it was
      to pick one and there was none. */
  ghost predicate Heard(c: Config, steps: seq<Step>, s: State, r: nat, i: nat) {
    && (forall a :: Told(steps, r, i, a) <==> Carries(TaskAt(s, r, i), a))
    && (Pick(r, i) in steps ==> InRange(s, r, i) && !TaskAt(s, r, i).Waiting?)
    && (InRange(s, r, i) ==> (TaskAt(s, r, i).NoEncoder? <==> Pick(r, i) in steps && c.encoders == []))
  }

  lemma ToldNext(steps: seq<Step>, step: Step, r: nat, i: nat, a: PostResult)
    ensures Told(steps + [step], r, i, a) <==>
      Told(steps, r, i, a) || step == (if a == Unsent then Cancel(r, i) else Answer(r, i, a))
  {}

  lemma {:induction false} HeardStep(c: Config, steps: seq<Step>, s: State, step: Step, r: nat, i: nat)
    requires Heard(c, steps, s, r, i) && Enabled(s, step)
    ensures Heard(c, steps + [step], Next(c, s, step), r, i)
  {
    var s' := Next(c, s, step);
    forall a ensures Told(steps + [step], r, i, a) <==> Carries(TaskAt(s', r, i), a) {
      ToldNext(steps, step, r, i, a);
    }
  }

  lemma {:induction false} AllHeard(c: Config, steps: seq<Step>, s: State, r: nat, i: nat)
    requires Run(c, steps, s)
    ensures Heard(c, steps, s, r, i)
  {
    if steps != [] {
      var before, step := steps[..|steps| - 1], steps[|steps| - 1];
      AllHeard(c, before, After(c, before).value, r, i);
      HeardStep(c, before, After(c, before).value, step, r, i);
      assert before + [step] == steps;
    }
  }

  /** A request that was gathered has only ended tasks; it is forwarded exactly if none of them is an error. */
  ghost predicate Decided(steps: seq<Step>, s: State, r: nat) {
    && (Gather(r) in steps ==> r < |s.reqs| && forall t :: t in s.reqs[r].tasks ==> Ended(t))
    && (r < |s.reqs| ==>
          (s.reqs[r].phase.Forwarded? <==> Gather(r) in steps && forall t :: t in s.reqs[r].tasks ==> !IsError(t)))
    && (Gather(r) in steps ==> !s.reqs[r].phase.Priming?)
  }

  lemma {:induction false} DecidedStep(c: Config, steps: seq<Step>, s: State, step: Step, r: nat)
    requires Decided(steps, s, r) && Enabled(s, step)
    ensures Decided(steps + [step], Next(c, s, step), r)
  {
    var s' := Next(c, s, step);
    assert Gather(r) in steps + [step] <==> Gather(r) in steps || step == Gather(r);
    if r < |s.reqs| && forall t :: t in s.reqs[r].tasks ==> Ended(t) { EndedStays(c, s, step, r); }
  }

  /** No step touches an ended task. */
  lemma EndedStays(c: Config, s: State, step: Step, r: nat)
    requires Enabled(s, step) && r < |s.reqs| && forall t :: t in s.reqs[r].tasks ==> Ended(t)
    ensures Next(c, s, step).reqs[r].tasks == s.reqs[r].tasks
  {
    if !step.Arrive? && !step.Gather? && step.r == r { EndedAt(s, r, step.i); }
  }

  lemma EndedAt(s: State, r: nat, i: nat)
    requires InRange(s, r, i) && forall t :: t in s.reqs[r].tasks ==> Ended(t)
    ensures Ended(TaskAt(s, r, i))
  {}

  lemma {:induction false} AllDecided(c: Config, steps: seq<Step>, s: State, r: nat)
    requires Run(c, steps, s)
    ensures Decided(steps, s, r)
  {
    if steps != [] {
      var before, step := steps[..|steps| - 1], steps[|steps| - 1];
      AllDecided(c, before, After(c, before).value, r);
      DecidedStep(c, before, After(c, before).value, step, r);
      assert before + [step] == steps;
    }
  }

  /** Nothing stands in the way of item i: its post was not answered with a failure, and it did not look
      for an encoder where there is none. */
  predicate Unhindered(c: Config, steps: seq<Step>, r: nat, i: nat) {
    Answer(r, i, Failure) !in steps && (Pick(r, i) in steps ==> c.encoders != [])
  }

  /** In every run a request is forwarded exactly when it was gathered and nothing stands in the way of any
      of its items. */
  lemma {:induction false} ForwardedIff(c: Config, steps: seq<Step>, s: State, r: nat)
    requires Run(c, steps, s) && r < |s.reqs|
    ensures s.reqs[r].phase.Forwarded? <==>
      Gather(r) in steps && forall i :: 0 <= i < |s.reqs[r].tasks| ==> Unhindered(c, steps, r, i)
  {
    AllDecided(c, steps, s, r);
    if Gather(r) in steps {
      forall i | 0 <= i < |s.reqs[r].tasks| ensures !IsError(s.reqs[r].tasks[i]) <==> Unhindered(c, steps, r, i) {
        EndedHindered(c, steps, s, r, i);
      }
      EachTask(s.reqs[r].tasks);
    }
  }

  lemma {:induction false} EndedHindered(c: Config, steps: seq<Step>, s: State, r: nat, i: nat)
    requires Run(c, steps, s) && InRange(s, r, i) && Ended(s.reqs[r].tasks[i])
    ensures IsError(s.reqs[r].tasks[i]) <==> !Unhindered(c, steps, r, i)
  {
    AllHeard(c, steps, s, r, i);
    assert Told(steps, r, i, Failure) <==> Carries(TaskAt(s, r, i), Failure);
  }

  lemma EachTask(tasks: seq<Task>)
    ensures (forall t :: t in tasks ==> !IsError(t)) <==> forall i :: 0 <= i < |tasks| ==> !IsError(tasks[i])
  {}

  /** A failed post stops its request for good: no later state has it forwarded. */
  lemma {:induction false} FailureBlocks(c: Config, steps: seq<Step>, s: State, r: nat, i: nat)
    requires Run(c, steps, s) && Answer(r, i, Failure) in steps
    ensures InRange(s, r, i) && !s.reqs[r].phase.Forwarded?
  {
    AllHeard(c, steps, s, r, i);
    assert Told(steps, r, i, Failure) <==> Carries(TaskAt(s, r, i), Failure);
    ForwardedIff(c, steps, s, r);
    if InRange(s, r, i) { assert !Unhindered(c, steps, r, i); }
  }

  /** Each item of a forwarded request was told that its post succeeded or was cancelled, or to stop before
      it, and never that its post failed. */
  lemma {:induction false} ForwardedHeard(c: Config, steps: seq<Step>, s: State, r: nat, i: nat)
    requires Run(c, steps, s) && InRange(s, r, i) && s.reqs[r].phase.Forwarded?
    ensures Answer(r, i, Success) in steps || Answer(r, i, Cancelled) in steps || Cancel(r, i) in steps
    ensures Answer(r, i, Failure) !in steps
  {
    BarrierSafe(c, steps, s);
    AllHeard(c, steps, s, r, i);
    ForwardedIff(c, steps, s, r);
    var t := s.reqs[r].tasks[i];
    assert Passed(t) && Unhindered(c, steps, r, i);
    assert Told(steps, r, i, t.answer) <==> Carries(TaskAt(s, r, i), t.answer);
  }

  // ---------------------------------------------------------------- what was posted, by what happened

  /** Every post belongs to an item whose task, while it waits for the answer or is about to release its
      encoder, is counted at the encoder that the post went to. */
  ghost predicate AtCharged(s: State, p: Post) {
    var t := TaskAt(s, p.req, p.idx);
    !t.Waiting? && !t.Picked? && (t.Posted? || t.Answered? ==> t.url == p.url)
  }

  ghost predicate AllAtCharged(s: State) {
    forall p :: p in s.posts ==> InRange(s, p.req, p.idx) && AtCharged(s, p)
  }

  lemma {:induction false} AtChargedStep(c: Config, s: State, step: Step, p: Post)
    requires p in s.posts ==> InRange(s, p.req, p.idx) && AtCharged(s, p)
    requires Enabled(s, step)
    ensures p in Next(c, s, step).posts ==> InRange(Next(c, s, step), p.req, p.idx) && AtCharged(Next(c, s, step), p)
  {}

  lemma {:induction false} PostedToCharged(c: Config, steps: seq<Step>, s: State)
    requires Run(c, steps, s)
    ensures AllAtCharged(s)
  {
    if steps != [] {
      var before, step := steps[..|steps| - 1], steps[|steps| - 1];
      var s0 := After(c, before).value;
      PostedToCharged(c, before, s0);
      forall p | p in s.posts ensures InRange(s, p.req, p.idx) && AtCharged(s, p) {
        AtChargedStep(c, s0, step, p);
      }
    }
  }

  /** The steps that send, and the messages that arrived, in order. */
  function Sends(steps: seq<Step>): seq<Step> {
    if steps == [] then []
    else Sends(steps[..|steps| - 1]) + if steps[|steps| - 1].Send? then [steps[|steps| - 1]] else []
  }

  function Arrivals(steps: seq<Step>): seq<seq<Content>> {
    if steps == [] then []
    else Arrivals(steps[..|steps| - 1])
         + if steps[|steps| - 1].Arrive? then [steps[|steps| - 1].messages] else []
  }

  ghost predicate Kept(c: Config, sends: seq<Step>, arrivals: seq<seq<Content>>, s: State) {
    && |s.posts| == |sends| && (forall k :: 0 <= k < |sends| ==> sends[k] == Send(s.posts[k].req, s.posts[k].idx))
    && |s.reqs| == |arrivals|
    && (c.servers != [] ==> forall r :: 0 <= r < |arrivals| ==> s.reqs[r].items == Keep(Flatten(arrivals[r])))
  }

  lemma KeptStep(c: Config, sends: seq<Step>, arrivals: seq<seq<Content>>, s: State, step: Step)
    requires Kept(c, sends, arrivals, s) && Enabled(s, step)
    ensures Kept(c, sends + if step.Send? then [step] else [],
                 arrivals + if step.Arrive? then [step.messages] else [], Next(c, s, step))
  {}

  /** The posts are those of the sending steps, in their order; the requests are those that arrived, in
      their order, each with the items of its messages. */
  lemma {:induction false} HistoryKept(c: Config, steps: seq<Step>, s: State)
    requires Run(c, steps, s)
    ensures Kept(c, Sends(steps), Arrivals(steps), s)
  {
    if steps != [] {
      var before, step := steps[..|steps| - 1], steps[|steps| - 1];
      HistoryKept(c, before, After(c, before).value);
      KeptStep(c, Sends(before), Arrivals(before), After(c, before).value, step);
    }
  }

  /** In every run each item of a forwarded request was posted exactly once, with its own content, if its
      task was not cancelled before the post, and never if it was; its post did not fail. */
  lemma {:induction false} ForwardedMeansPosted(c: Config, steps: seq<Step>, s: State, r: nat, i: nat)
    requires Run(c, steps, s) && r < |s.reqs| && s.reqs[r].phase.Forwarded? && i < |s.reqs[r].items|
    ensures TaskAt(s, r, i).Closed? && TaskAt(s, r, i).answer != Failure
    ensures Times(s.posts, r, i) == if TaskAt(s, r, i).answer == Unsent then 0 else 1
    ensures Cancel(r, i) in steps <==> TaskAt(s, r, i).answer == Unsent
    ensures Answer(r, i, Failure) !in steps
    ensures forall p :: p in s.posts && p.req == r && p.idx == i ==> p.item == s.reqs[r].items[i]
  {
    BarrierSafe(c, steps, s);
    assert Passed(s.reqs[r].tasks[i]);
    AllHeard(c, steps, s, r, i);
    assert Told(steps, r, i, Unsent) <==> Carries(TaskAt(s, r, i), Unsent);
    ForwardedHeard(c, steps, s, r, i);
  }

  predicate WasCancelled(t: Task) { t == Closed(Cancelled) || t == Closed(Unsent) }

  /** Gathering forwards exactly when no post of the request was answered with a failure and none of its
      items found no encoder. Every post was then made and succeeded exactly when, besides, no task was
      cancelled, before or after its post. */
  lemma {:induction false} GatherExact(c: Config, steps: seq<Step>, s: State, r: nat)
    requires Run(c, steps, s) && Enabled(s, Gather(r))
    ensures var q := Next(c, s, Gather(r)).reqs[r];
      && (q.phase.Forwarded? <==> forall t :: t in q.tasks ==> !IsError(t))
      && (q.phase.Forwarded? <==> forall i :: 0 <= i < |q.tasks| ==> Unhindered(c, steps, r, i))
      && ((forall t :: t in q.tasks ==> t == Closed(Success))
          <==> q.phase.Forwarded? && forall t :: t in q.tasks ==> !WasCancelled(t))
    ensures forall i :: 0 <= i < |s.reqs[r].tasks| ==>
      (s.reqs[r].tasks[i] == Closed(Success) <==> Answer(r, i, Success) in steps)
      && (WasCancelled(s.reqs[r].tasks[i]) <==> Answer(r, i, Cancelled) in steps || Cancel(r, i) in steps)
  {
    var q := Next(c, s, Gather(r)).reqs[r];
    forall t | t in q.tasks ensures t == Closed(Success) || WasCancelled(t) || IsError(t) {
      EndingsOf(t);
    }
    forall i | 0 <= i < |q.tasks| ensures !IsError(q.tasks[i]) <==> Unhindered(c, steps, r, i) {
      assert q.tasks[i] in s.reqs[r].tasks;
      EndedHindered(c, steps, s, r, i);
    }
    EachTask(q.tasks);
    forall i | 0 <= i < |s.reqs[r].tasks|
      ensures s.reqs[r].tasks[i] == Closed(Success) <==> Answer(r, i, Success) in steps
      ensures WasCancelled(s.reqs[r].tasks[i]) <==> Answer(r, i, Cancelled) in steps || Cancel(r, i) in steps
    {
      assert s.reqs[r].tasks[i] in s.reqs[r].tasks;
      EndedTold(c, steps, s, r, i);
    }
  }

  lemma {:induction false} EndedTold(c: Config, steps: seq<Step>, s: State, r: nat, i: nat)
    requires Run(c, steps, s) && InRange(s, r, i) && Ended(s.reqs[r].tasks[i])
    ensures s.reqs[r].tasks[i] == Closed(Success) <==> Answer(r, i, Success) in steps
    ensures WasCancelled(s.reqs[r].tasks[i]) <==> Answer(r, i, Cancelled) in steps || Cancel(r, i) in steps
  {
    AllHeard(c, steps, s, r, i);
    var t := TaskAt(s, r, i);
    assert Told(steps, r, i, Success) <==> Carries(t, Success);
    assert Told(steps, r, i, Cancelled) <==> Carries(t, Cancelled);
    assert Told(steps, r, i, Unsent) <==> Carries(t, Unsent);
  }

  lemma EndingsOf(t: Task)
    requires Ended(t)
    ensures t == Closed(Success) || WasCancelled(t) || IsError(t)
  {
    if t.Closed? { assert t.answer.Success? || t.answer.Failure? || t.answer.Cancelled? || t.answer.Unsent?; }
  }

  lemma AfterNext(c: Config, steps: seq<Step>, s: State, step: Step, s': State)
    requires Run(c, steps, s) && Enabled(s, step) && Next(c, s, step) == s'
    ensures Run(c, steps + [step], s')
  {
    assert (steps + [step])[..|steps|] == steps;
  }

  /** The state of a single request with a single task. */
  function Single(inflight: map<Url, int>, item: Part, t: Task, posts: seq<Post>, phase: Phase): State {
    State(inflight, 1, [Request([item], [t], "p", phase)], posts)
  }

  lemma SingleSet(item: Part, t: Task, t': Task)
    ensures SetTask([Request([item], [t], "p", Priming)], 0, 0, t') == [Request([item], [t'], "p", Priming)]
  {
    assert [t][0 := t'] == [t'];
  }

  /** A run in which a request is forwarded although its only post was cancelled. */
  lemma CancelledGoesThrough()
    ensures exists c, steps, s :: Run(c, steps, s) && LetThrough(s, Cancelled)
  {
    var c, item := Config(["e"], ["p"]), Part("image_url", "x");
    var first, start := FirstArrives(c, item);
    var s, steps := SingleCancelled(c, item, first, start);
    var s', steps' := GatherCancelled(c, item, steps, s, Cancelled);
    assert Run(c, steps', s') && LetThrough(s', Cancelled);
  }

  /** A run in which a request is forwarded although its only item was never posted. */
  lemma UnsentGoesThrough()
    ensures exists c, steps, s :: Run(c, steps, s) && LetThrough(s, Unsent) && s.posts == []
  {
    var c, item := Config(["e"], ["p"]), Part("image_url", "x");
    var first, start := FirstArrives(c, item);
    var s, steps := SingleUnsent(c, item, first, start);
    var s', steps' := GatherCancelled(c, item, steps, s, Unsent);
    assert Run(c, steps', s') && LetThrough(s', Unsent) && s'.posts == [];
  }

  lemma SingleUnsent(c: Config, item: Part, steps: seq<Step>, s: State) returns (s': State, steps': seq<Step>)
    requires s == Single(s.inflight, item, Waiting, [], Priming) && Run(c, steps, s)
    ensures s' == Single(s'.inflight, item, Closed(Unsent), [], Priming) && Run(c, steps', s')
  {
    s', steps' := Next(c, s, Cancel(0, 0)), steps + [Cancel(0, 0)];
    SingleSet(item, Waiting, Closed(Unsent));
    AfterNext(c, steps, s, Cancel(0, 0), s');
  }

  /** A single request, forwarded although its only task ended with the answer. */
  predicate LetThrough(s: State, answer: PostResult) {
    |s.reqs| == 1 && s.reqs[0].phase.Forwarded? && s.reqs[0].tasks == [Closed(answer)]
  }

  lemma GatherCancelled(c: Config, item: Part, steps: seq<Step>, s: State, answer: PostResult)
    returns (s': State, steps': seq<Step>)
    requires Run(c, steps, s) && answer != Failure
    requires s == Single(s.inflight, item, Closed(answer), s.posts, Priming)
    ensures Run(c, steps', s') && LetThrough(s', answer) && s'.posts == s.posts
  {
    s', steps' := Next(c, s, Gather(0)), steps + [Gather(0)];
    AfterNext(c, steps, s, Gather(0), s');
  }

  lemma FirstArrives(c: Config, item: Part) returns (steps: seq<Step>, s: State)
    requires c.servers == ["p"] && IsMultimodal(item)
    ensures Run(c, steps, s) && s == Single(s.inflight, item, Waiting, [], Priming)
  {
    var messages := [Parts([item])];
    assert Keep([item]) == [item] by { KeepNext([], item); assert [] + [item] == [item]; }
    assert Flatten(messages) == [item] by { assert messages[..0] == []; assert [] + [item] == [item]; }
    assert Waits(1) == [Waiting];
    steps, s := [] + [Arrive(messages)], Single(map[], item, Waiting, [], Priming);
    AfterNext(c, [], INIT, Arrive(messages), s);
  }

  lemma SingleCancelled(c: Config, item: Part, steps: seq<Step>, s: State) returns (s': State, steps': seq<Step>)
    requires c.encoders != [] && s == Single(s.inflight, item, Waiting, [], Priming) && Run(c, steps, s)
    ensures s' == Single(s'.inflight, item, Closed(Cancelled), s'.posts, Priming) && Run(c, steps', s')
  {
    var s2 := Next(c, s, Pick(0, 0));
    var e := s2.reqs[0].tasks[0].url;
    SingleSet(item, Waiting, Picked(e));
    AfterNext(c, steps, s, Pick(0, 0), s2);
    var s3 := Next(c, s2, Send(0, 0));
    SingleSet(item, Picked(e), Posted(e));
    AfterNext(c, steps + [Pick(0, 0)], s2, Send(0, 0), s3);
    var s4 := Next(c, s3, Answer(0, 0, Cancelled));
    SingleSet(item, Posted(e), Answered(e, Cancelled));
    AfterNext(c, steps + [Pick(0, 0)] + [Send(0, 0)], s3, Answer(0, 0, Cancelled), s4);
    s' := Next(c, s4, Release(0, 0));
    SingleSet(item, Answered(e, Cancelled), Closed(Cancelled));
    steps' := steps + [Pick(0, 0)] + [Send(0, 0)] + [Answer(0, 0, Cancelled)];
    AfterNext(c, steps', s4, Release(0, 0), s');
    steps' := steps' + [Release(0, 0)];
  }

  // ---------------------------------------------------------------- progress

  ghost function TaskWork(t: Task): nat {
    match t case Waiting => 4 case Picked(_) => 3 case Posted(_) => 2 case Answered(_, _) => 1 case _ => 0
  }

  ghost function TasksWork(tasks: seq<Task>): nat {
    if tasks == [] then 0 else TasksWork(tasks[..|tasks| - 1]) + TaskWork(tasks[|tasks| - 1])
  }

  ghost function RequestWork(q: Request): nat { TasksWork(q.tasks) + Bit(q.phase.Priming?) }

  ghost function Work(reqs: seq<Request>): nat {
    if reqs == [] then 0 else Work(reqs[..|reqs| - 1]) + RequestWork(reqs[|reqs| - 1])
  }

  lemma {:induction false} TasksWorkUpdate(tasks: seq<Task>, i: nat, t: Task)
    requires i < |tasks|
    ensures TasksWork(tasks[i := t]) == TasksWork(tasks) - TaskWork(tasks[i]) + TaskWork(t)
  {
    var n := |tasks| - 1;
    if i < n {
      TasksWorkUpdate(tasks[..n], i, t);
      assert tasks[i := t][..n] == tasks[..n][i := t];
    } else {
      assert tasks[i := t][..n] == tasks[..n];
    }
  }

  lemma {:induction false} WorkReplace(reqs: seq<Request>, r: nat, q: Request)
    requires r < |reqs|
    ensures Work(reqs[r := q]) == Work(reqs) - RequestWork(reqs[r]) + RequestWork(q)
  {
    var n := |reqs| - 1;
    if r < n {
      WorkReplace(reqs[..n], r, q);
      assert reqs[r := q][..n] == reqs[..n][r := q];
    } else {
      assert reqs[r := q][..n] == reqs[..n];
    }
  }

  /** Every step but an arrival uses up work, so between arrivals a run is bounded; and as long as
      some request is neither forwarded nor rejected, some such step is enabled. */
  lemma StepUsesWork(c: Config, s: State, step: Step)
    requires Enabled(s, step) && !step.Arrive?
    ensures Work(Next(c, s, step).reqs) < Work(s.reqs)
  {
    var q := Next(c, s, step).reqs[step.r];
    WorkReplace(s.reqs, step.r, q);
    RequestUsesWork(c, s, step, q);
  }

  lemma RequestUsesWork(c: Config, s: State, step: Step, q: Request)
    requires Enabled(s, step) && !step.Arrive? && q == Next(c, s, step).reqs[step.r]
    ensures Next(c, s, step).reqs == s.reqs[step.r := q] && RequestWork(q) < RequestWork(s.reqs[step.r])
  {
    if !step.Gather? { TasksWorkUpdate(s.reqs[step.r].tasks, step.i, q.tasks[step.i]); }
  }

  lemma NeverStuck(c: Config, steps: seq<Step>, s: State, r: nat)
    requires Run(c, steps, s) && r < |s.reqs| && s.reqs[r].phase.Priming?
    ensures exists step :: Enabled(s, step) && !step.Arrive?
  {
    BarrierSafe(c, steps, s);
    if i :| 0 <= i < |s.reqs[r].tasks| && !Ended(s.reqs[r].tasks[i]) {
      var t := TaskAt(s, r, i);
      var step := if t.Waiting? then Pick(r, i) else if t.Picked? then Send(r, i)
                  else if t.Posted? then Answer(r, i, Success) else Release(r, i);
      assert Enabled(s, step);
    } else {
      assert Enabled(s, Gather(r));
    }
  }

  // ---------------------------------------------------------------- round robin

  /** The r-th request to arrive goes to server r modulo their number. */
  lemma {:induction false} RoundRobin(c: Config, steps: seq<Step>, s: State)
    requires Run(c, steps, s) && c.servers != []
    ensures s.count == |s.reqs|
    ensures forall r :: 0 <= r < |s.reqs| ==> s.reqs[r].addr == c.servers[r % |c.servers|]
  {
    if steps != [] {
      var p := After(c, steps[..|steps| - 1]).value;
      RoundRobin(c, steps[..|steps| - 1], p);
      RoundRobinStep(c, p, steps[|steps| - 1]);
    }
  }

  lemma RoundRobinStep(c: Config, s: State, step: Step)
    requires Enabled(s, step) && c.servers != [] && s.count == |s.reqs|
    requires forall r :: 0 <= r < |s.reqs| ==> s.reqs[r].addr == c.servers[r % |c.servers|]
    ensures var s' := Next(c, s, step);
      s'.count == |s'.reqs| && forall r :: 0 <= r < |s'.reqs| ==> s'.reqs[r].addr == c.servers[r % |c.servers|]
  {
    var s' := Next(c, s, step);
    forall r | 0 <= r < |s'.reqs| ensures s'.reqs[r].addr == c.servers[r % |c.servers|] {
      if r < |s.reqs| { assert s'.reqs[r].addr == s.reqs[r].addr; }
    }
  }

  /** How many of the first k requests go to server position a. */
  ghost function Share(k: nat, n: nat, a: nat): nat
    requires n > 0
  {
    if k == 0 then 0 else Share(k - 1, n, a) + Bit((k - 1) % n == a)
  }

  lemma {:induction false} ShareExact(k: nat, n: nat, a: nat)
    requires a < n
    ensures Share(k, n, a) == (k + n - 1 - a) / n
  {
    if k == 0 {
      Division(n - 1 - a, 0, n, 0);
    } else {
      ShareExact(k - 1, n, a);
      OneMore(k - 1, n, a);
    }
  }

  lemma OneMore(k: nat, n: nat, a: nat)
    requires a < n
    ensures (k + n - a) / n == (k + n - 1 - a) / n + Bit(k % n == a)
  {
    NextMultiple(k / n, n);
    DivideAround(k, n, a, k / n, k % n, k / n * n);
  }

  lemma DivideAround(k: nat, n: nat, a: nat, q: nat, m: nat, low: nat)
    requires a < n && m < n && low == q * n && low + n == (q + 1) * n && k == low + m
    ensures (k + n - a) / n == if m < a then q else q + 1
    ensures (k + n - 1 - a) / n == if m <= a then q else q + 1
  {
    if m < a { Division(k + n - a, q, n, low); } else { Division(k + n - a, q + 1, n, low + n); }
    if m <= a { Division(k + n - 1 - a, q, n, low); } else { Division(k + n - 1 - a, q + 1, n, low + n); }
  }

  lemma Division(x: nat, q: nat, n: nat, low: nat)
    requires low == q * n && low <= x < low + n
    ensures x / n == q
  {
    var d := x / n;
    assert d * n <= x < d * n + n;
    MulMonotone(d + 1, q, n);
    MulMonotone(q + 1, d, n);
    NextMultiple(d, n);
    NextMultiple(q, n);
  }
}
