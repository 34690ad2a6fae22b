/** Experiment ids: printed by joining parts with "__" (llmperf/llmperf/utils.py and
    llmperf/llmperf/runner/base.py) and read back with regular expressions (plots/utils.py). */
module ExperimentId {
  import opened Wrappers

  // ---------------------------------------------------------------- printing

  function Join(parts: seq<string>): string {
    if parts == [] then ""
    else if |parts| == 1 then parts[0]
    else parts[0] + "__" + Join(parts[1..])
  }

  type Keyword = (string, string)

  /** Each keyword argument becomes one part, its name followed by its value. */
  function KeywordParts(kwargs: seq<Keyword>): seq<string> {
    seq(|kwargs|, i requires 0 <= i < |kwargs| => kwargs[i].0 + kwargs[i].1)
  }

  function OrDef(value: Option<string>): string { if value.Some? then value.value else "def" }

  method AppendKeywords(fixed: seq<string>, kwargs: seq<Keyword>) returns (parts: seq<string>)
    ensures parts == fixed + KeywordParts(kwargs)
  {
    parts := fixed;
    for i := 0 to |kwargs|
      invariant parts == fixed + KeywordParts(kwargs)[..i]
    {
      parts := parts + [kwargs[i].0 + kwargs[i].1];
    }
  }

  method JoinParts(parts: seq<string>) returns (id: string)
    ensures id == Join(parts)
  {
    if parts == [] {
      return "";
    }
    id := parts[|parts| - 1];
    for i := |parts| - 1 downto 0
      invariant id == Join(parts[i..])
    {
      assert parts[i..][1..] == parts[i + 1..];
      id := parts[i] + "__" + id;
    }
  }

  /** The arguments of the library function; the numbers come as printed. */
  datatype Library = Library(workload: string, model: string, approach: string, version: string, timestamp: string,
                             gpuUtil: string, swapSpace: string, numGpuBlocks: Option<string>,
                             maxModelLen: Option<string>, maxNumBatchedTokens: Option<string>)

  function LibraryHead(a: Library): seq<string> { [a.workload, a.model, a.approach, a.version, a.timestamp] }

  function LibraryOptions(a: Library): seq<Keyword> {
    [("maxlen", OrDef(a.maxModelLen)), ("batch", OrDef(a.maxNumBatchedTokens)), ("blocks", OrDef(a.numGpuBlocks)),
     ("gpu", a.gpuUtil), ("swap", a.swapSpace)]
  }

  function LibraryParts(a: Library, kwargs: seq<Keyword>): seq<string> {
    LibraryHead(a) + KeywordParts(LibraryOptions(a)) + KeywordParts(kwargs)
  }

  method CreateExperimentId(a: Library, kwargs: seq<Keyword>) returns (id: string)
    ensures id == Join(LibraryParts(a, kwargs))
  {
    var fixed := LibraryHead(a) + ["maxlen" + OrDef(a.maxModelLen), "batch" + OrDef(a.maxNumBatchedTokens),
                                   "blocks" + OrDef(a.numGpuBlocks), "gpu" + a.gpuUtil, "swap" + a.swapSpace];
    assert fixed == LibraryHead(a) + KeywordParts(LibraryOptions(a));
    var parts := AppendKeywords(fixed, kwargs);
    id := JoinParts(parts);
  }

  /** What a run of the load generator is configured with; absent options are printed as def. */
  datatype Setup = Setup(workload: string, model: string, engine: string, approach: string, timestamp: string,
                         policy: Option<string>, maxLen: Option<string>, batch: Option<string>, blocks: Option<string>,
                         encBatch: Option<string>, encBlocks: Option<string>, gpu: Option<string>, swap: Option<string>,
                         rate: string, profile: Option<string>)

  function Identity(s: Setup): seq<string> { [s.workload, s.model, s.engine, s.approach, s.timestamp] }

  function Options(s: Setup): seq<Keyword> {
    [("pol", OrDef(s.policy)), ("maxlen", OrDef(s.maxLen)), ("batch", OrDef(s.batch)), ("blocks", OrDef(s.blocks)),
     ("encbatch", OrDef(s.encBatch)), ("encblocks", OrDef(s.encBlocks)), ("gpu", OrDef(s.gpu)), ("swap", OrDef(s.swap)),
     ("engine", s.engine), ("approach", s.approach), ("rate", s.rate), ("prof", OrDef(s.profile))]
  }

  /** The parts of the id a run is saved under; more options may follow. */
  function RunParts(s: Setup, more: seq<Keyword>): seq<string> { Identity(s) + KeywordParts(Options(s) + more) }

  method CreateRunId(s: Setup, more: seq<Keyword>) returns (id: string)
    ensures id == Join(RunParts(s, more))
  {
    var parts := AppendKeywords(Identity(s), Options(s) + more);
    id := JoinParts(parts);
  }

  // ---------------------------------------------------------------- reading

  predicate Plain(s: string) { '_' !in s }

  /** What one field matches: some characters, none an underscore. */
  predicate IsField(s: string) { s != "" && Plain(s) }

  /** How many characters precede the first underscore. */
  function Run(s: string): (k: nat)
    ensures k <= |s| && Plain(s[..k]) && (k < |s| ==> s[k] == '_')
  {
    if s == "" || s[0] == '_' then 0
    else
      var k := Run(s[1..]);
      assert s[..k + 1] == [s[0]] + s[1..][..k];
      k + 1
  }

  /** The group that ([^_]+)__ captures at the start of s. */
  function Group(s: string): Option<string> {
    var k := Run(s);
    if k > 0 && k + 2 <= |s| && s[k + 1] == '_' then Some(s[..k]) else None
  }

  /** Field n of an id by the anchored patterns: n fields, each followed by two underscores, precede it. */
  function FieldAt(s: string, n: nat): Option<string> {
    match Group(s)
    case None => None
    case Some(g) => if n == 0 then Some(g) else FieldAt(s[|g| + 2..], n - 1)
  }

  /** The group of __keyword([^_]+)__ at the start of s. */
  function MatchHere(s: string, keyword: string): Option<string> {
    if "__" + keyword <= s then Group(s[2 + |keyword|..]) else None
  }

  /** The group of the leftmost match. */
  function Search(s: string, keyword: string): Option<string> {
    if MatchHere(s, keyword).Some? || s == "" then MatchHere(s, keyword) else Search(s[1..], keyword)
  }

  datatype Key = Key(model: string, system: string, approach: string, rate: string)

  function ParseKey(id: string): Option<Key> {
    var model, system := FieldAt(id, 1), FieldAt(id, 2);
    KeyFrom(model, system, Search(id, "approach"), Search(id, "rate"))
  }

  /** The record is skipped if any field is missing. */
  function KeyFrom(model: Option<string>, system: Option<string>, approach: Option<string>, rate: Option<string>):
    Option<Key>
  {
    if model.Some? && system.Some? && approach.Some? && rate.Some?
    then Some(Key(model.value, system.value, approach.value, rate.value)) else None
  }

  function ParseIsoKey(id: string): Option<(string, string)> {
    var workload, model := FieldAt(id, 0), FieldAt(id, 1);
    if workload.Some? && model.Some? then Some((model.value, workload.value)) else None
  }

  // ---------------------------------------------------------------- the patterns are deterministic

  lemma {:induction false} RunOf(p: string, t: string)
    requires Plain(p) && (t == "" || t[0] == '_')
    ensures Run(p + t) == |p|
  {
    if p == "" {
      assert p + t == t;
    } else {
      assert (p + t)[1..] == p[1..] + t;
      RunOf(p[1..], t);
    }
  }

  /** However the pattern is matched, it captures the same group. */
  lemma GroupExact(s: string, g: string)
    ensures Group(s) == Some(g) <==> IsField(g) && g + "__" <= s
  {
    if IsField(g) && g + "__" <= s {
      var t := s[|g|..];
      assert s == g + t;
      assert (g + "__")[|g|] == '_' && (g + "__")[|g| + 1] == '_';
      RunOf(g, t);
    }
    if Group(s) == Some(g) {
      assert s[|g|..|g| + 2] == "__";
      assert s[..|g| + 2] == g + "__";
    }
  }

  /** The fields each followed by two underscores. */
  function Closed(fields: seq<string>): string {
    if fields == [] then "" else fields[0] + "__" + Closed(fields[1..])
  }

  ghost predicate Captures(s: string, fields: seq<string>) {
    (forall i :: 0 <= i < |fields| ==> IsField(fields[i])) && Closed(fields) <= s
  }

  /** Field n is captured exactly when the id begins with n + 1 closed fields, the last of them it. */
  lemma {:induction false} FieldExact(s: string, n: nat, f: string)
    ensures FieldAt(s, n) == Some(f) <==> exists fields :: |fields| == n + 1 && fields[n] == f && Captures(s, fields)
  {
    if FieldAt(s, n) == Some(f) { var _ := FieldCaptured(s, n); }
    forall fields | |fields| == n + 1 && Captures(s, fields) ensures FieldAt(s, n) == Some(fields[n]) {
      CapturedField(s, n, fields);
    }
  }

  lemma {:induction false} FieldCaptured(s: string, n: nat) returns (fields: seq<string>)
    requires FieldAt(s, n).Some?
    ensures |fields| == n + 1 && Some(fields[n]) == FieldAt(s, n) && Captures(s, fields)
  {
    var g := Group(s).value;
    GroupExact(s, g);
    if n == 0 {
      fields := [g];
      assert Closed(fields) == g + "__";
    } else {
      var t := s[|g| + 2..];
      assert s == g + "__" + t;
      var rest := FieldCaptured(t, n - 1);
      fields := [g] + rest;
      assert Closed(fields) == g + "__" + Closed(rest);
      PrefixJoin(g + "__", Closed(rest), t);
    }
  }

  lemma PrefixJoin(a: string, b: string, t: string)
    ensures b <= t <==> a + b <= a + t
  {
    if a + b <= a + t {
      assert t == (a + t)[|a|..] && b == (a + b)[|a|..];
      assert (a + t)[..|a + b|][|a|..] == t[..|b|];
    }
  }

  lemma {:induction false} CapturedField(s: string, n: nat, fields: seq<string>)
    requires |fields| == n + 1 && Captures(s, fields)
    ensures FieldAt(s, n) == Some(fields[n])
  {
    var g := fields[0];
    assert Closed(fields) == g + "__" + Closed(fields[1..]);
    assert g + "__" <= s by { assert (g + "__" + Closed(fields[1..]))[..|g| + 2] == g + "__"; }
    GroupExact(s, g);
    if n > 0 {
      var t := s[|g| + 2..];
      assert s == g + "__" + t;
      PrefixJoin(g + "__", Closed(fields[1..]), t);
      CapturedField(t, n - 1, fields[1..]);
    }
  }

  // ---------------------------------------------------------------- the pieces of an id

  /** Two underscores stand at position i. */
  predicate DoubleAt(s: string, i: int) { 0 <= i && i + 1 < |s| && s[i] == '_' && s[i + 1] == '_' }

  predicate NoDouble(s: string) { forall i :: 0 <= i < |s| ==> !DoubleAt(s, i) }

  predicate Open(s: string) { s != "" && s[|s| - 1] == '_' }

  /** How many characters precede the first two underscores. */
  function CutAt(s: string): (k: nat)
    ensures k <= |s| && (k < |s| ==> DoubleAt(s, k)) && forall i :: 0 <= i < k ==> !DoubleAt(s, i)
  {
    if s == "" || DoubleAt(s, 0) then 0
    else
      var k := CutAt(s[1..]);
      assert forall i :: 1 <= i < |s| ==> (DoubleAt(s, i) <==> DoubleAt(s[1..], i - 1));
      k + 1
  }

  /** The pieces of an id, cut at its double underscores from the left. */
  function Split(s: string): (pieces: seq<string>)
    ensures pieces != []
    decreases |s|
  {
    var k := CutAt(s);
    if k == |s| then [s] else [s[..k]] + Split(s[k + 2..])
  }

  /** A piece followed by rest, which is nothing or begins with the two underscores that end the piece. */
  predicate Whole(p: string, rest: string) { NoDouble(p) && (rest == "" || ("__" <= rest && !Open(p))) }

  lemma {:induction false} CutOf(s: string, p: string, rest: string)
    requires s == p + rest && Whole(p, rest)
    ensures CutAt(s) == |p|
  {
    forall i | 0 <= i < |p| ensures !DoubleAt(s, i) {
      assert !DoubleAt(p, i);
      assert i + 1 < |p| ==> s[i + 1] == p[i + 1];
    }
    assert rest != "" ==> DoubleAt(s, |p|);
  }

  lemma {:induction false} SplitStep(s: string, p: string, t: string)
    requires s == p + ("__" + t) && NoDouble(p) && !Open(p)
    ensures Split(s) == [p] + Split(t)
  {
    CutOf(s, p, "__" + t);
    assert s[..|p|] == p && s[|p| + 2..] == t;
  }

  /** Every id is its first piece and, if more follow, the rest behind two underscores. */
  lemma {:induction false} FirstPiece(s: string) returns (p: string, rest: string, t: string)
    ensures s == p + rest && Whole(p, rest) && p == Split(s)[0]
    ensures rest == "" <==> |Split(s)| == 1
    ensures rest != "" ==> rest == "__" + t && Split(s)[1..] == Split(t) && |t| < |s|
  {
    var k := CutAt(s);
    p, rest := s[..k], s[k..];
    NoneBefore(s, k, p);
    if k == |s| {
      t := "";
      assert p == s && rest == "";
    } else {
      t := s[k + 2..];
      assert rest == "__" + t;
      assert Split(s) == [p] + Split(t);
    }
  }

  lemma NoneBefore(s: string, k: nat, p: string)
    requires k <= |s| && p == s[..k] && forall i :: 0 <= i < k ==> !DoubleAt(s, i)
    ensures NoDouble(p) && (k < |s| && s[k] == '_' ==> !Open(p))
  {
    forall i | 0 <= i < k ensures !DoubleAt(p, i) {
      assert !DoubleAt(s, i);
    }
    assert k > 0 ==> !DoubleAt(s, k - 1);
  }

  lemma {:induction false} JoinSplit(s: string)
    ensures Join(Split(s)) == s
    decreases |s|
  {
    var p, rest, t := FirstPiece(s);
    if rest == "" {
      assert Split(s) == [p] && p + rest == p;
    } else {
      JoinSplit(t);
      assert Split(s) == [p] + Split(t);
      JoinCons(p, Split(t));
    }
  }

  /** Joining puts two underscores between any two parts, and nothing else. */
  lemma {:induction false} JoinAppends(a: seq<string>, b: seq<string>)
    requires a != [] && b != []
    ensures Join(a + b) == Join(a) + ("__" + Join(b))
  {
    if |a| == 1 {
      assert (a + b)[1..] == b;
    } else {
      assert (a + b)[1..] == a[1..] + b;
      JoinAppends(a[1..], b);
      assert Join(a + b) == a[0] + "__" + Join(a[1..] + b);
    }
  }

  lemma {:induction false} JoinCons(p: string, rest: seq<string>)
    requires rest != []
    ensures Join([p] + rest) == p + ("__" + Join(rest))
  {
    assert ([p] + rest)[1..] == rest;
  }

  /** Joining keeps these parts apart: none has a double underscore, and none but the last ends in one. */
  predicate Kept(parts: seq<string>) {
    parts != [] && forall i :: 0 <= i < |parts| ==> KeptAt(parts, i)
  }

  predicate KeptAt(parts: seq<string>, i: int)
    requires 0 <= i < |parts|
  {
    NoDouble(parts[i]) && (i < |parts| - 1 ==> !Open(parts[i]))
  }

  lemma KeptCons(p: string, rest: seq<string>)
    requires rest != []
    ensures Kept([p] + rest) <==> NoDouble(p) && !Open(p) && Kept(rest)
  {
    var parts := [p] + rest;
    assert forall i :: 0 <= i < |rest| ==> parts[i + 1] == rest[i] && (KeptAt(parts, i + 1) <==> KeptAt(rest, i));
    if NoDouble(p) && !Open(p) && Kept(rest) {
      forall i | 0 <= i < |parts| ensures KeptAt(parts, i) {
        if i > 0 { assert KeptAt(rest, i - 1); }
      }
    }
    if Kept(parts) {
      assert KeptAt(parts, 0);
      forall i | 0 <= i < |rest| ensures KeptAt(rest, i) { assert KeptAt(parts, i + 1); }
    }
  }

  lemma {:induction false} SplitKept(s: string)
    ensures Kept(Split(s))
    decreases |s|
  {
    var p, rest, t := FirstPiece(s);
    if rest == "" {
      assert Split(s) == [p] && KeptAt([p], 0);
    } else {
      SplitKept(t);
      KeptCons(p, Split(t));
      assert Split(s) == [p] + Split(t);
    }
  }

  lemma {:induction false} KeptSplit(parts: seq<string>)
    requires Kept(parts)
    ensures Split(Join(parts)) == parts
  {
    if |parts| == 1 {
      assert KeptAt(parts, 0);
      assert parts[0] + "" == parts[0];
      CutOf(parts[0], parts[0], "");
    } else {
      var rest := parts[1..];
      assert parts == [parts[0]] + rest;
      KeptCons(parts[0], rest);
      KeptSplit(rest);
      assert Join(parts) == parts[0] + ("__" + Join(rest));
      SplitStep(Join(parts), parts[0], Join(rest));
    }
  }

  /** Cutting a joined id gives back its parts exactly when joining has kept them apart. */
  lemma {:induction false} SplitJoinIff(parts: seq<string>)
    ensures Split(Join(parts)) == parts <==> Kept(parts)
  {
    SplitKept(Join(parts));
    if Kept(parts) { KeptSplit(parts); }
  }

  // ---------------------------------------------------------------- what the anchored patterns find

  /** The group at the start of a piece is all of it, if it has no underscore and more pieces follow. */
  lemma GroupOfPiece(p: string, rest: string)
    requires Whole(p, rest)
    ensures Group(p + rest) == if IsField(p) && rest != "" then Some(p) else None
  {
    var k := Run(p);
    assert p + rest == p[..k] + (p[k..] + rest);
    RunOf(p[..k], p[k..] + rest);
    if k < |p| {
      assert !DoubleAt(p, k);
      assert k + 1 < |p| ==> (p + rest)[k + 1] == p[k + 1];
    } else {
      assert p[..k] == p;
      assert rest != "" ==> (p + rest)[k + 1] == rest[1];
    }
  }

  predicate LeadFields(parts: seq<string>, n: nat)
    requires n <= |parts|
  {
    forall i :: 0 <= i < n ==> IsField(parts[i])
  }

  /** Field n of any id is its n-th piece, if this and all pieces before it are non-empty and without
      underscores and more pieces follow; otherwise there is none. */
  lemma {:induction false} FieldOfPieces(s: string, n: nat)
    ensures FieldAt(s, n) == PieceField(Split(s), n)
    decreases n
  {
    var p, rest, t := FirstPiece(s);
    GroupOfPiece(p, rest);
    if rest == "" {
      PieceFieldSingle(Split(s), n);
    } else {
      assert s[|p| + 2..] == t;
      assert Split(s) == [p] + Split(t);
      PieceFieldCons(p, Split(t), n);
      if n > 0 { FieldOfPieces(t, n - 1); }
    }
  }

  function PieceField(pieces: seq<string>, n: nat): Option<string> {
    if n + 1 < |pieces| && LeadFields(pieces, n + 1) then Some(pieces[n]) else None
  }

  lemma PieceFieldSingle(pieces: seq<string>, n: nat)
    requires |pieces| == 1
    ensures PieceField(pieces, n) == None
  {}

  lemma PieceFieldCons(p: string, rest: seq<string>, n: nat)
    requires rest != []
    ensures PieceField([p] + rest, n) ==
      if !IsField(p) then None else if n == 0 then Some(p) else PieceField(rest, n - 1)
  {
    if n <= |rest| { LeadCons(p, rest, n); }
  }

  lemma LeadCons(p: string, rest: seq<string>, n: nat)
    requires n <= |rest|
    ensures LeadFields([p] + rest, n + 1) <==> IsField(p) && LeadFields(rest, n)
  {
    var parts := [p] + rest;
    assert parts[0] == p;
    forall i | 0 <= i < n && LeadFields(parts, n + 1) ensures IsField(rest[i]) { assert rest[i] == parts[i + 1]; }
    forall i | 0 <= i < n + 1 && IsField(p) && LeadFields(rest, n) ensures IsField(parts[i]) {
      assert i > 0 ==> parts[i] == rest[i - 1];
    }
  }

  /** The first fields of a joined id are read back exactly when each is a non-empty part without an
      underscore. */
  lemma {:induction false} FieldsRoundTrip(parts: seq<string>, n: nat)
    requires n + 1 < |parts|
    ensures (forall i :: 0 <= i <= n ==> FieldAt(Join(parts), i) == Some(parts[i])) <==>
      (forall i :: 0 <= i <= n ==> IsField(parts[i]))
  {
    if forall i :: 0 <= i <= n ==> IsField(parts[i]) {
      forall i | 0 <= i <= n ensures FieldAt(Join(parts), i) == Some(parts[i]) {
        FieldOfJoin(parts, i);
      }
    }
    forall i | 0 <= i <= n && FieldAt(Join(parts), i) == Some(parts[i]) ensures IsField(parts[i]) {
      var fields := FieldCaptured(Join(parts), i);
      assert IsField(fields[i]);
    }
  }

  lemma {:induction false} FieldOfJoin(parts: seq<string>, n: nat)
    requires n + 1 < |parts| && LeadFields(parts, n + 1)
    ensures FieldAt(Join(parts), n) == Some(parts[n])
  {
    forall i | 0 <= i <= n ensures IsField(parts[i]) && Join(parts[i..]) == parts[i] + "__" + Join(parts[i + 1..]) {
      JoinTail(parts[i..], parts[i + 1..]);
    }
    var tails := seq(n + 2, i requires 0 <= i <= n + 1 => Join(parts[i..]));
    assert forall i :: 0 <= i <= n ==> Heads(parts[i], tails[i], tails[i + 1]);
    FieldOfTails(tails, parts, n, 0);
    assert parts[0..] == parts;
  }

  ghost predicate Heads(p: string, s: string, t: string) { IsField(p) && s == p + "__" + t }

  lemma {:induction false} HeadField(p: string, s: string, t: string, n: nat)
    requires Heads(p, s, t)
    ensures FieldAt(s, n) == if n == 0 then Some(p) else FieldAt(t, n - 1)
  {
    FieldBehind(s, p, t, n);
  }

  /** Each of the strings is a part and two underscores in front of the next one. */
  lemma {:induction false} FieldOfTails(tails: seq<string>, parts: seq<string>, n: nat, k: nat)
    requires k <= n && n + 1 < |tails| && n < |parts|
    requires forall i :: 0 <= i <= n ==> Heads(parts[i], tails[i], tails[i + 1])
    ensures FieldAt(tails[k], n - k) == Some(parts[n])
    decreases n - k
  {
    HeadField(parts[k], tails[k], tails[k + 1], n - k);
    if k < n { FieldOfTails(tails, parts, n, k + 1); }
  }

  lemma {:induction false} JoinTail(parts: seq<string>, rest: seq<string>)
    requires |parts| > 1 && rest == parts[1..]
    ensures Join(parts) == parts[0] + "__" + Join(rest)
  {}

  lemma FieldBehind(s: string, p: string, t: string, n: nat)
    requires IsField(p) && s == p + "__" + t
    ensures FieldAt(s, n) == if n == 0 then Some(p) else FieldAt(t, n - 1)
  {
    assert p + "__" <= s by { assert s[..|p| + 2] == p + "__"; }
    GroupExact(s, p);
    assert s[|p| + 2..] == t;
  }

  // ---------------------------------------------------------------- what a keyword search finds

  /** A piece without the underscore it may begin with. */
  function Trim(part: string): string { if part != "" && part[0] == '_' then part[1..] else part }

  /** The piece is the keyword followed by a value. */
  predicate Carries(part: string, keyword: string) { keyword <= Trim(part) && IsField(Trim(part)[|keyword|..]) }

  function Value(part: string, keyword: string): string
    requires keyword <= Trim(part)
  {
    Trim(part)[|keyword|..]
  }

  /** The value of the first part that carries the keyword and is not the last. */
  function FirstHit(parts: seq<string>, keyword: string): Option<string> {
    if |parts| <= 1 then None
    else if Carries(parts[0], keyword) then Some(Value(parts[0], keyword))
    else FirstHit(parts[1..], keyword)
  }

  /** No match begins inside a piece. */
  lemma {:induction false} SearchSkips(p: string, rest: string, keyword: string)
    requires Whole(p, rest)
    ensures Search(p + rest, keyword) == Search(rest, keyword)
  {
    if p == "" {
      assert p + rest == rest;
    } else {
      WholeTail(p, rest, 1);
      assert p + rest == [p[0]] + (p[1..] + rest);
      NoMatchInside(p, rest, keyword);
      SearchStep(p[0], p[1..] + rest, keyword);
      SearchSkips(p[1..], rest, keyword);
    }
  }

  lemma WholeTail(p: string, rest: string, k: nat)
    requires Whole(p, rest) && k <= |p|
    ensures Whole(p[k..], rest)
  {
    forall i ensures !DoubleAt(p[k..], i) {
      assert !DoubleAt(p, i + k);
    }
  }

  lemma NoMatchInside(p: string, rest: string, keyword: string)
    requires Whole(p, rest) && p != ""
    ensures MatchHere(p + rest, keyword) == None
  {
    var s := p + rest;
    assert !DoubleAt(p, 0);
    if |s| > 1 {
      PrefixAt("__" + keyword, s, 0);
      PrefixAt("__" + keyword, s, 1);
      assert |p| > 1 ==> s[1] == p[1];
    }
  }

  lemma PrefixAt(a: string, s: string, i: nat)
    requires i < |a| && i < |s|
    ensures a <= s ==> a[i] == s[i]
  {}

  lemma {:induction false} SearchStep(ch: char, s: string, keyword: string)
    ensures MatchHere([ch] + s, keyword) == None ==> Search([ch] + s, keyword) == Search(s, keyword)
    ensures MatchHere([ch] + s, keyword).Some? ==> Search([ch] + s, keyword) == MatchHere([ch] + s, keyword)
  {
    assert ([ch] + s)[1..] == s;
  }

  /** What a match right behind two underscores captures, a third one included. */
  function Behind(t: string, keyword: string): Option<string> {
    if keyword <= Trim(t) then Group(Trim(t)[|keyword|..]) else None
  }

  lemma {:induction false} SearchBehind(s: string, t: string, keyword: string)
    requires s == "__" + t && IsField(keyword)
    ensures Search(s, keyword) == if Behind(t, keyword).Some? then Behind(t, keyword) else Search(t, keyword)
  {
    var s' := "_" + t;
    assert s == ['_'] + s' && s' == ['_'] + t;
    MatchFirst(s, t, keyword);
    MatchSecond(s', t, keyword);
    SearchStep('_', s', keyword);
    SearchStep('_', t, keyword);
  }

  lemma MatchFirst(s: string, t: string, keyword: string)
    requires s == "__" + t && IsField(keyword)
    ensures MatchHere(s, keyword) == if t != "" && t[0] == '_' then None else Behind(t, keyword)
  {
    PrefixJoin("__", keyword, t);
    if t != "" && t[0] == '_' { PrefixAt(keyword, t, 0); }
    if keyword <= t { assert s[2 + |keyword|..] == t[|keyword|..]; }
  }

  lemma MatchSecond(s: string, t: string, keyword: string)
    requires s == "_" + t && IsField(keyword)
    ensures MatchHere(s, keyword) == if t != "" && t[0] == '_' then Behind(t, keyword) else None
  {
    if t != "" && t[0] == '_' {
      assert s == "__" + t[1..];
      PrefixJoin("__", keyword, t[1..]);
      if keyword <= t[1..] { assert s[2 + |keyword|..] == t[1..][|keyword|..]; }
    } else if |s| > 1 {
      PrefixAt("__" + keyword, s, 1);
    }
  }

  /** A keyword that begins p + t and cannot reach beyond p begins p. */
  lemma PrefixWithin(keyword: string, p: string, t: string)
    requires Plain(keyword) && (t == "" || t[0] == '_')
    ensures keyword <= p + t <==> keyword <= p
  {
    if t == "" {
      assert p + t == p;
    } else if |keyword| > |p| {
      PrefixAt(keyword, p + t, |p|);
    } else {
      assert (p + t)[..|keyword|] == p[..|keyword|];
    }
  }

  lemma BehindPiece(t: string, p: string, rest: string, keyword: string)
    requires t == p + rest && Whole(p, rest) && IsField(keyword)
    ensures Behind(t, keyword) == if Carries(p, keyword) && rest != "" then Some(Value(p, keyword)) else None
  {
    if p == "" {
      assert t == rest;
      if rest != "" { PrefixAt(keyword, Trim(t), 0); }
    } else {
      var q := Trim(p);
      WholeTail(p, rest, |p| - |q|);
      assert Trim(t) == q + rest;
      PrefixWithin(keyword, q, rest);
      if keyword <= q {
        WholeTail(q, rest, |keyword|);
        assert Trim(t)[|keyword|..] == q[|keyword|..] + rest;
        GroupOfPiece(q[|keyword|..], rest);
      }
    }
  }

  /** Searching any id finds the first of its pieces, after the first and before the last, that carries
      the keyword. */
  lemma {:induction false} KeywordSearch(s: string, keyword: string)
    requires IsField(keyword)
    ensures Search(s, keyword) == FirstHit(Split(s)[1..], keyword)
    decreases |s|
  {
    var p, rest, t := FirstPiece(s);
    SearchSkips(p, rest, keyword);
    if rest != "" {
      KeywordSearch(t, keyword);
      SearchBehind(rest, t, keyword);
      var p', rest', t' := FirstPiece(t);
      BehindPiece(t, p', rest', keyword);
    }
  }

  // ---------------------------------------------------------------- what any id is read as

  /** What an id with these pieces is read as. */
  function PiecesKey(pieces: seq<string>): Option<Key> {
    if pieces == [] then None
    else KeyFrom(PieceField(pieces, 1), PieceField(pieces, 2),
                 FirstHit(pieces[1..], "approach"), FirstHit(pieces[1..], "rate"))
  }

  /** Any id, by its pieces: it parses exactly when its first three pieces are fields and a later piece,
      not the last, carries each keyword; what stands third is then taken for the system. */
  lemma {:induction false} ParseExact(id: string)
    ensures ParseKey(id) == PiecesKey(Split(id))
    ensures var pieces, k := Split(id), ParseKey(id);
      && (k.Some? <==>
            && |pieces| > 3 && LeadFields(pieces, 3)
            && FirstHit(pieces[1..], "approach").Some? && FirstHit(pieces[1..], "rate").Some?)
      && (k.Some? ==> k.value.model == pieces[1] && k.value.system == pieces[2]
                      && Some(k.value.approach) == FirstHit(pieces[1..], "approach")
                      && Some(k.value.rate) == FirstHit(pieces[1..], "rate"))
  {
    FieldOfPieces(id, 1);
    FieldOfPieces(id, 2);
    KeywordSearch(id, "approach");
    KeywordSearch(id, "rate");
    PiecesKeyExact(Split(id));
  }

  lemma {:induction false} PiecesKeyExact(pieces: seq<string>)
    requires pieces != []
    ensures PiecesKey(pieces).Some? <==>
      && |pieces| > 3 && LeadFields(pieces, 3)
      && FirstHit(pieces[1..], "approach").Some? && FirstHit(pieces[1..], "rate").Some?
  {
    assert |pieces| > 3 && LeadFields(pieces, 3) ==> LeadFields(pieces, 2);
  }

  // ---------------------------------------------------------------- round trip of a run's id

  predicate AllFields(parts: seq<string>) { forall i :: 0 <= i < |parts| ==> IsField(parts[i]) }

  /** The value of the first part that carries the keyword. */
  function FirstCarried(parts: seq<string>, keyword: string): Option<string> {
    if parts == [] then None
    else if Carries(parts[0], keyword) then Some(Value(parts[0], keyword))
    else FirstCarried(parts[1..], keyword)
  }

  lemma {:induction false} HitInJoin(a: seq<string>, b: seq<string>, keyword: string)
    requires b != []
    ensures FirstHit(a + b, keyword) ==
      if FirstCarried(a, keyword).Some? then FirstCarried(a, keyword) else FirstHit(b, keyword)
  {
    if a == [] {
      assert a + b == b;
    } else {
      assert (a + b)[1..] == a[1..] + b;
      HitInJoin(a[1..], b, keyword);
    }
  }

  lemma {:induction false} HitIsField(parts: seq<string>, keyword: string)
    ensures FirstHit(parts, keyword).Some? ==> IsField(FirstHit(parts, keyword).value)
  {
    if |parts| > 1 { HitIsField(parts[1..], keyword); }
  }

  /** A part that begins with neither the keyword nor an underscore. */
  predicate StartsOther(part: string, keyword: string) {
    part != "" && part[0] != '_' && (keyword == "" || part[0] != keyword[0])
  }

  lemma {:induction false} NoneCarries(parts: seq<string>, keyword: string)
    requires keyword != "" && forall i :: 0 <= i < |parts| ==> StartsOther(parts[i], keyword)
    ensures FirstCarried(parts, keyword) == None
  {
    if parts != [] { NoneCarries(parts[1..], keyword); }
  }

  /** Option k of the run carries its own name; if no earlier option starts like it, it is the hit. */
  lemma {:induction false} HitOption(kwargs: seq<Keyword>, k: nat)
    requires k + 1 < |kwargs| && IsField(kwargs[k].0) && IsField(kwargs[k].1)
    requires forall i :: 0 <= i < k ==> StartsOther(kwargs[i].0, kwargs[k].0)
    ensures FirstHit(KeywordParts(kwargs), kwargs[k].0) == Some(kwargs[k].1)
  {
    var parts, keyword := KeywordParts(kwargs), kwargs[k].0;
    OthersStart(kwargs, k, keyword);
    NoneCarries(parts[..k], keyword);
    HitInJoin(parts[..k], parts[k..], keyword);
    assert parts == parts[..k] + parts[k..];
    assert parts[k] == keyword + kwargs[k].1;
    CarriesOwn(parts[k], keyword, kwargs[k].1);
  }

  lemma CarriesOwn(part: string, keyword: string, value: string)
    requires IsField(keyword) && IsField(value) && part == keyword + value
    ensures Carries(part, keyword) && Value(part, keyword) == value
  {
    assert part[0] == keyword[0] && Trim(part) == part && part[|keyword|..] == value;
  }

  lemma OthersStart(kwargs: seq<Keyword>, k: nat, keyword: string)
    requires k <= |kwargs|
    requires forall i :: 0 <= i < k ==> StartsOther(kwargs[i].0, keyword)
    ensures forall i :: 0 <= i < k ==> StartsOther(KeywordParts(kwargs)[..k][i], keyword)
  {
    forall i | 0 <= i < k ensures StartsOther(KeywordParts(kwargs)[..k][i], keyword) {
      assert StartsOther(kwargs[i].0, keyword) && KeywordParts(kwargs)[i] == kwargs[i].0 + kwargs[i].1;
    }
  }

  /** Nothing among the identifying parts is mistaken for the keyword, or what is has the same value. */
  predicate Unshadowed(s: Setup, keyword: string, value: string) {
    var first := FirstCarried(Identity(s)[1..], keyword);
    first == None || first == Some(value)
  }

  lemma {:induction false} KeptSearch(parts: seq<string>, keyword: string)
    requires Kept(parts) && IsField(keyword)
    ensures Search(Join(parts), keyword) == FirstHit(parts[1..], keyword)
  {
    KeywordSearch(Join(parts), keyword);
    KeptSplit(parts);
  }

  lemma {:induction false} RunHit(s: Setup, more: seq<Keyword>, keyword: string, k: nat)
    requires (k == 9 && keyword == "approach") || (k == 10 && keyword == "rate")
    ensures FirstHit(RunParts(s, more)[1..], keyword) == Some(Options(s)[k].1) <==>
      IsField(Options(s)[k].1) && Unshadowed(s, keyword, Options(s)[k].1)
  {
    var kwargs, value := Options(s) + more, Options(s)[k].1;
    assert kwargs[k] == (keyword, value);
    assert RunParts(s, more)[1..] == Identity(s)[1..] + KeywordParts(kwargs);
    HitInJoin(Identity(s)[1..], KeywordParts(kwargs), keyword);
    HitIsField(RunParts(s, more)[1..], keyword);
    if IsField(value) {
      NamesBefore(s, more, k);
      HitOption(kwargs, k);
    }
  }

  lemma NamesBefore(s: Setup, more: seq<Keyword>, k: nat)
    requires k == 9 || k == 10
    ensures forall i :: 0 <= i < k ==> StartsOther((Options(s) + more)[i].0, Options(s)[k].0)
  {
    forall i | 0 <= i < k ensures StartsOther((Options(s) + more)[i].0, Options(s)[k].0) {
      assert (Options(s) + more)[i] == Options(s)[i];
    }
  }

  /** The id of any run reads back as the run's model, engine, approach and rate exactly when its pieces
      say so. Where joining keeps its parts apart, that is: workload, model, engine, approach and rate are
      non-empty and without underscores, and no model, engine, approach or timestamp looks like another
      approach or rate. */
  lemma {:induction false} RunRoundTrip(s: Setup, more: seq<Keyword>)
    ensures var id, pieces := Join(RunParts(s, more)), Split(Join(RunParts(s, more)));
      ParseKey(id) == Some(Key(s.model, s.engine, s.approach, s.rate)) <==>
      && |pieces| > 3 && LeadFields(pieces, 3) && pieces[1] == s.model && pieces[2] == s.engine
      && FirstHit(pieces[1..], "approach") == Some(s.approach) && FirstHit(pieces[1..], "rate") == Some(s.rate)
    ensures Kept(RunParts(s, more)) ==>
      (ParseKey(Join(RunParts(s, more))) == Some(Key(s.model, s.engine, s.approach, s.rate)) <==>
       && AllFields([s.workload, s.model, s.engine, s.approach, s.rate])
       && Unshadowed(s, "approach", s.approach) && Unshadowed(s, "rate", s.rate))
  {
    ParseExact(Join(RunParts(s, more)));
    if Kept(RunParts(s, more)) { KeptRunRoundTrip(s, more); }
  }

  lemma {:induction false} KeptRunRoundTrip(s: Setup, more: seq<Keyword>)
    requires Kept(RunParts(s, more))
    ensures ParseKey(Join(RunParts(s, more))) == Some(Key(s.model, s.engine, s.approach, s.rate)) <==>
      && AllFields([s.workload, s.model, s.engine, s.approach, s.rate])
      && Unshadowed(s, "approach", s.approach) && Unshadowed(s, "rate", s.rate)
  {
    HeadFields(RunParts(s, more), s.workload, s.model, s.engine);
    KeptSearch(RunParts(s, more), "approach");
    KeptSearch(RunParts(s, more), "rate");
    RunHit(s, more, "approach", 9);
    RunHit(s, more, "rate", 10);
    FiveFields(s.workload, s.model, s.engine, s.approach, s.rate);
  }

  lemma FiveFields(a: string, b: string, c: string, d: string, e: string)
    ensures AllFields([a, b, c, d, e]) <==> IsField(a) && IsField(b) && IsField(c) && IsField(d) && IsField(e)
  {
    var five := [a, b, c, d, e];
    assert five[0] == a && five[1] == b && five[2] == c && five[3] == d && five[4] == e;
  }

  /** The two fields that are read of an id whose first parts are given. */
  lemma {:induction false} HeadFields(parts: seq<string>, w: string, m: string, x: string)
    requires |parts| > 3 && Kept(parts) && parts[0] == w && parts[1] == m && parts[2] == x
    ensures FieldAt(Join(parts), 1) == if IsField(w) && IsField(m) then Some(m) else None
    ensures FieldAt(Join(parts), 2) == if IsField(w) && IsField(m) && IsField(x) then Some(x) else None
  {
    KeptSplit(parts);
    FieldOfPieces(Join(parts), 1);
    FieldOfPieces(Join(parts), 2);
    Leads(parts, w, m, x);
  }

  lemma Leads(parts: seq<string>, w: string, m: string, x: string)
    requires |parts| > 3 && parts[0] == w && parts[1] == m && parts[2] == x
    ensures PieceField(parts, 1) == if IsField(w) && IsField(m) then Some(m) else None
    ensures PieceField(parts, 2) == if IsField(w) && IsField(m) && IsField(x) then Some(x) else None
  {
    assert LeadFields(parts, 2) <==> IsField(w) && IsField(m);
    assert LeadFields(parts, 3) <==> IsField(w) && IsField(m) && IsField(x);
  }

  lemma {:induction false} IsoRoundTrip(parts: seq<string>)
    requires |parts| > 2
    ensures IsField(parts[0]) && IsField(parts[1]) <==> ParseIsoKey(Join(parts)) == Some((parts[1], parts[0]))
  {
    FieldsRoundTrip(parts, 1);
    assert (forall i :: 0 <= i <= 1 ==> IsField(parts[i])) <==> IsField(parts[0]) && IsField(parts[1]);
  }

  // ---------------------------------------------------------------- when an id of the library parses

  /** What is found for a keyword in an id of the library: among the arguments after the workload, and
      else among the keyword arguments but the last. */
  function LibraryValue(a: Library, kwargs: seq<Keyword>, keyword: string): Option<string> {
    var first := FirstCarried(LibraryHead(a)[1..], keyword);
    if first.Some? then first else FirstHit(KeywordParts(kwargs), keyword)
  }

  lemma {:induction false} LibraryHit(a: Library, kwargs: seq<Keyword>, keyword: string)
    requires keyword == "approach" || keyword == "rate"
    ensures FirstHit(LibraryParts(a, kwargs)[1..], keyword) == LibraryValue(a, kwargs, keyword)
  {
    var head, fixed, more := LibraryHead(a)[1..], KeywordParts(LibraryOptions(a)), KeywordParts(kwargs);
    assert LibraryParts(a, kwargs)[1..] == head + (fixed + more);
    HitInJoin(head, fixed + more, keyword);
    forall i | 0 <= i < |LibraryOptions(a)|
      ensures StartsOther(LibraryOptions(a)[i].0, keyword) {}
    OthersStart(LibraryOptions(a), |LibraryOptions(a)|, keyword);
    assert fixed[..|LibraryOptions(a)|] == fixed;
    NoneCarries(fixed, keyword);
    if more == [] {
      assert fixed + more == fixed;
      NoneHits(fixed, keyword);
    } else {
      HitInJoin(fixed, more, keyword);
    }
  }

  lemma {:induction false} NoneHits(parts: seq<string>, keyword: string)
    requires FirstCarried(parts, keyword) == None
    ensures FirstHit(parts, keyword) == None
  {
    if |parts| > 1 { NoneHits(parts[1..], keyword); }
  }

  /** An id of the library, where joining keeps its parts apart, parses exactly when workload, model and
      approach are fields and its arguments or keyword arguments happen to carry both an approach and a
      rate; the approach argument itself is then taken for the system. In general its pieces decide. */
  lemma {:induction false} LibraryParses(a: Library, kwargs: seq<Keyword>)
    ensures var k, pieces := ParseKey(Join(LibraryParts(a, kwargs))), Split(Join(LibraryParts(a, kwargs)));
      && (k.Some? <==>
            && |pieces| > 3 && LeadFields(pieces, 3)
            && FirstHit(pieces[1..], "approach").Some? && FirstHit(pieces[1..], "rate").Some?)
      && (k.Some? ==> k.value.system == pieces[2])
    ensures var k := ParseKey(Join(LibraryParts(a, kwargs)));
      Kept(LibraryParts(a, kwargs)) ==>
      && (k.Some? <==>
            && IsField(a.workload) && IsField(a.model) && IsField(a.approach)
            && LibraryValue(a, kwargs, "approach").Some? && LibraryValue(a, kwargs, "rate").Some?)
      && (k.Some? ==> k.value.system == a.approach && k.value.model == a.model
                      && Some(k.value.approach) == LibraryValue(a, kwargs, "approach"))
  {
    ParseExact(Join(LibraryParts(a, kwargs)));
    if Kept(LibraryParts(a, kwargs)) { KeptLibraryParses(a, kwargs, LibraryParts(a, kwargs)); }
  }

  lemma {:induction false} KeptLibraryParses(a: Library, kwargs: seq<Keyword>, parts: seq<string>)
    requires parts == LibraryParts(a, kwargs) && Kept(parts)
    ensures ParseKey(Join(parts)).Some? <==>
      && IsField(a.workload) && IsField(a.model) && IsField(a.approach)
      && LibraryValue(a, kwargs, "approach").Some? && LibraryValue(a, kwargs, "rate").Some?
    ensures ParseKey(Join(parts)).Some? ==>
      var k := ParseKey(Join(parts)).value;
      k.system == a.approach && k.model == a.model && Some(k.approach) == LibraryValue(a, kwargs, "approach")
  {
    KeptSearch(parts, "approach");
    KeptSearch(parts, "rate");
    LibraryHit(a, kwargs, "approach");
    LibraryHit(a, kwargs, "rate");
    HeadFields(parts, a.workload, a.model, a.approach);
  }

  predicate Occurs(s: string, w: string) { exists i :: 0 <= i <= |s| && OccursAt(s, w, i) }

  predicate OccursAt(s: string, w: string, i: int) { 0 <= i <= |s| && w <= s[i..] }

  /** An id none of whose parts contains the word approach does not parse, whatever its underscores. */
  lemma {:induction false} LibraryIdUnread(a: Library, kwargs: seq<Keyword>)
    requires forall i :: 0 <= i < |LibraryParts(a, kwargs)| ==> !Occurs(LibraryParts(a, kwargs)[i], "approach")
    ensures ParseKey(Join(LibraryParts(a, kwargs))) == None
  {
    var id := Join(LibraryParts(a, kwargs));
    if Search(id, "approach").Some? {
      var i := SearchOccurs(id, "approach");
      var _ := OccursInPart(LibraryParts(a, kwargs), "approach", i);
    }
  }

  lemma {:induction false} SearchOccurs(s: string, keyword: string) returns (i: nat)
    requires Search(s, keyword).Some?
    ensures OccursAt(s, keyword, i)
  {
    if MatchHere(s, keyword).Some? {
      i := 2;
      assert s[..|"__" + keyword|] == "__" + keyword;
      assert s[2..][..|keyword|] == keyword;
    } else {
      var j := SearchOccurs(s[1..], keyword);
      i := j + 1;
      assert s[i..] == s[1..][j..];
    }
  }

  /** A word without underscores that occurs in a joined id occurs in one of its parts. */
  lemma {:induction false} OccursInPart(parts: seq<string>, w: string, i: nat) returns (k: nat)
    requires parts != [] && IsField(w) && OccursAt(Join(parts), w, i)
    ensures k < |parts| && Occurs(parts[k], w)
  {
    if |parts| == 1 {
      k := 0;
      assert OccursAt(parts[0], w, i);
    } else {
      var p, t := parts[0], Join(parts[1..]);
      var s := p + ("__" + t);
      assert Join(parts) == s;
      if i < |p| {
        assert s[i..] == p[i..] + ("__" + t);
        PrefixWithin(w, p[i..], "__" + t);
        assert OccursAt(p, w, i);
        k := 0;
      } else {
        OccursBehind(p, t, s, w, i);
        k := OccursInPart(parts[1..], w, i - |p| - 2);
        k := k + 1;
      }
    }
  }

  lemma OccursBehind(p: string, t: string, s: string, w: string, i: nat)
    requires s == p + ("__" + t) && IsField(w) && OccursAt(s, w, i) && i >= |p|
    ensures i >= |p| + 2 && OccursAt(t, w, i - |p| - 2)
  {
    PrefixAt(w, s[i..], 0);
    assert i >= |p| + 2 ==> s[i..] == t[i - |p| - 2..];
  }

  /** Such as the id of this run. */
  lemma {:induction false} LibraryIdExample(a: Library)
    requires a == Library("w", "m", "tp1", "v1", "114306", "0.95", "0", None, None, None)
    ensures ParseKey(Join(LibraryParts(a, []))) == None
  {
    PlainKept(LibraryHead(a), LibraryOptions(a));
    assert LibraryParts(a, []) == LibraryHead(a) + KeywordParts(LibraryOptions(a));
    assert LibraryHead(a)[1..] == ["m", "tp1", "v1", "114306"];
    NoneCarries(LibraryHead(a)[1..], "approach");
    assert KeywordParts([]) == [];
    LibraryParses(a, []);
  }

  lemma {:induction false} PlainKept(head: seq<string>, kwargs: seq<Keyword>)
    requires head != [] && forall i :: 0 <= i < |head| ==> Plain(head[i])
    requires forall i :: 0 <= i < |kwargs| ==> Plain(kwargs[i].0) && Plain(kwargs[i].1)
    ensures Kept(head + KeywordParts(kwargs))
  {
    var parts := head + KeywordParts(kwargs);
    forall i | 0 <= i < |parts| ensures KeptAt(parts, i) {
      if i >= |head| { assert parts[i] == kwargs[i - |head|].0 + kwargs[i - |head|].1; }
      assert Plain(parts[i]);
    }
  }

  // ---------------------------------------------------------------- the ids part by part

  lemma RunPartsListed(s: Setup, more: seq<Keyword>)
    ensures RunParts(s, more) ==
      [s.workload, s.model, s.engine, s.approach, s.timestamp,
       "pol" + OrDef(s.policy), "maxlen" + OrDef(s.maxLen), "batch" + OrDef(s.batch), "blocks" + OrDef(s.blocks),
       "encbatch" + OrDef(s.encBatch), "encblocks" + OrDef(s.encBlocks), "gpu" + OrDef(s.gpu),
       "swap" + OrDef(s.swap), "engine" + s.engine, "approach" + s.approach, "rate" + s.rate,
       "prof" + OrDef(s.profile)] + KeywordParts(more)
    ensures KeywordParts(more) == seq(|more|, i requires 0 <= i < |more| => more[i].0 + more[i].1)
  {}

  lemma LibraryPartsListed(a: Library, kwargs: seq<Keyword>)
    ensures LibraryParts(a, kwargs) ==
      [a.workload, a.model, a.approach, a.version, a.timestamp, "maxlen" + OrDef(a.maxModelLen),
       "batch" + OrDef(a.maxNumBatchedTokens), "blocks" + OrDef(a.numGpuBlocks), "gpu" + a.gpuUtil,
       "swap" + a.swapSpace] + KeywordParts(kwargs)
  {}

  lemma OrDefExact(value: Option<string>)
    ensures OrDef(value) == match value case Some(v) => v case None => ['d', 'e', 'f']
  {}

  ghost predicate AllPlain(kwargs: seq<Keyword>) {
    forall i :: 0 <= i < |kwargs| ==> Plain(kwargs[i].0) && Plain(kwargs[i].1)
  }

  /** A run reads back if nothing in its id has an underscore of its own, no field is empty, and no
      identifying part begins like the keywords. */
  lemma {:induction false} PlainRunReads(s: Setup, more: seq<Keyword>)
    requires AllFields(Identity(s)) && IsField(s.rate) && AllPlain(Options(s) + more)
    requires forall i :: 1 <= i < 5 ==> Identity(s)[i][0] != 'a' && Identity(s)[i][0] != 'r'
    ensures ParseKey(Join(RunParts(s, more))) == Some(Key(s.model, s.engine, s.approach, s.rate))
  {
    PlainKept(Identity(s), Options(s) + more);
    NoneCarries(Identity(s)[1..], "approach");
    NoneCarries(Identity(s)[1..], "rate");
    IdentityFields(s);
    RunRoundTrip(s, more);
  }

  lemma IdentityFields(s: Setup)
    requires AllFields(Identity(s)) && IsField(s.rate)
    ensures AllFields([s.workload, s.model, s.engine, s.approach, s.rate])
  {
    var id := Identity(s);
    assert id[0] == s.workload && id[1] == s.model && id[2] == s.engine && id[3] == s.approach;
    FiveFields(s.workload, s.model, s.engine, s.approach, s.rate);
  }

  /** Such as the run whose id the reader documents. */
  lemma {:induction false} DocumentedReads(s: Setup)
    requires Identity(s) == ["mixed-heavy", "llava-ov", "vllm", "tp1", "20260525-114306"]
    requires Options(s) == [("pol", "def"), ("maxlen", "def"), ("batch", "def"), ("blocks", "def"), ("encbatch", "def"),
      ("encblocks", "def"), ("gpu", "0.95"), ("swap", "0"), ("engine", "vllm"), ("approach", "tp1"), ("rate", "1.0"),
      ("prof", "poisson")]
    ensures ParseKey(Join(RunParts(s, [("strat", "uniform"), ("maxframe", "-1")]))) ==
      Some(Key("llava-ov", "vllm", "tp1", "1.0"))
  {
    var more := [("strat", "uniform"), ("maxframe", "-1")];
    assert Identity(s) == [s.workload, s.model, s.engine, s.approach, s.timestamp];
    assert Options(s)[10] == ("rate", s.rate);
    TheirOptions(Options(s), more);
    TheirIdentity(Identity(s));
    PlainRunReads(s, more);
  }

  lemma TheirOptions(options: seq<Keyword>, more: seq<Keyword>)
    requires options == [("pol", "def"), ("maxlen", "def"), ("batch", "def"), ("blocks", "def"), ("encbatch", "def"),
      ("encblocks", "def"), ("gpu", "0.95"), ("swap", "0"), ("engine", "vllm"), ("approach", "tp1"), ("rate", "1.0"),
      ("prof", "poisson")]
    requires more == [("strat", "uniform"), ("maxframe", "-1")]
    ensures AllPlain(options + more)
  {
    assert AllPlain(options) && AllPlain(more);
  }

  lemma TheirIdentity(id: seq<string>)
    requires id == ["mixed-heavy", "llava-ov", "vllm", "tp1", "20260525-114306"]
    ensures AllFields(id) && forall i :: 1 <= i < 5 ==> id[i][0] != 'a' && id[i][0] != 'r'
  {}
}
