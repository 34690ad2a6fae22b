/** Benchmark logs grouped by the keys in their ids (plots/utils.py): a four-level table of lists,
    whose inner tables come into being when they are first read, and the two-level table of single runs. */
module ResultGrouping {
  import Ids = ExperimentId
  import opened Wrappers

  datatype Record = Record(id: string, body: string)

  /** A line of the file: empty after stripping, not JSON, or a JSON record (its id empty if it has none). */
  datatype Line = Blank | NotJson | Json(record: Record)

  /** A table or a list; a list may in principle take in a table that it replaces. */
  datatype Node = Table(children: map<string, Node>) | List(items: seq<Item>)
  datatype Item = Single(record: Record) | Nested(node: Node)

  const NEW := Table(map[])

  function Child(n: Node, name: string): Node { if n.Table? && name in n.children then n.children[name] else NEW }

  /** What table[path[0]][path[1]]... reads; a missing table is a new one. */
  function Get(n: Node, path: seq<string>): Node
    decreases path
  {
    if path == [] then n else Get(Child(n, path[0]), path[1..])
  }

  function Put(n: Node, path: seq<string>, v: Node): Node
    decreases path
  {
    if path == [] then v
    else Table((if n.Table? then n.children else map[])[path[0] := Put(Child(n, path[0]), path[1..], v)])
  }

  /** Tables down to depth d, none of them empty, and non-empty lists of records there. */
  ghost predicate Shaped(n: Node, d: nat) {
    if d == 0 then n.List? && n.items != [] && forall i :: 0 <= i < |n.items| ==> n.items[i].Single?
    else n.Table? && n.children != map[] && forall name :: name in n.children ==> Shaped(n.children[name], d - 1)
  }

  ghost predicate Open(n: Node, d: nat) { n == NEW || Shaped(n, d) }

  // ---------------------------------------------------------------- tables

  lemma {:induction false} GetPut(n: Node, path: seq<string>, v: Node)
    ensures Get(Put(n, path, v), path) == v
    decreases path
  {
    if path != [] { GetPut(Child(n, path[0]), path[1..], v); }
  }

  lemma {:induction false} GetOther(n: Node, path: seq<string>, v: Node, q: seq<string>)
    requires |q| == |path| && q != path
    ensures Get(Put(n, path, v), q) == Get(n, q)
    decreases path
  {
    if q[0] == path[0] {
      assert q == [q[0]] + q[1..] && path == [path[0]] + path[1..];
      GetOther(Child(n, path[0]), path[1..], v, q[1..]);
    }
  }

  lemma {:induction false} PutTwice(n: Node, path: seq<string>, v: Node, w: Node)
    ensures Put(Put(n, path, v), path, w) == Put(n, path, w)
    decreases path
  {
    if path != [] { PutTwice(Child(n, path[0]), path[1..], v, w); }
  }

  lemma {:induction false} ShapedPut(n: Node, path: seq<string>, v: Node)
    requires Open(n, |path|) && Shaped(v, 0)
    ensures Shaped(Put(n, path, v), |path|)
    decreases path
  {
    if path != [] {
      ShapedPut(Child(n, path[0]), path[1..], v);
      assert path[0] in Put(n, path, v).children;
    }
  }

  lemma {:induction false} GetShaped(n: Node, path: seq<string>)
    requires Open(n, |path|)
    ensures Open(Get(n, path), 0)
    decreases path
  {
    if path != [] { GetShaped(Child(n, path[0]), path[1..]); }
  }

  // ---------------------------------------------------------------- grouping

  function KeyOf(line: Line): Option<Ids.Key> { if line.Json? then Ids.ParseKey(line.record.id) else None }

  function PathOf(k: Ids.Key): (path: seq<string>)
    ensures |path| == 4
  {
    [k.model, k.system, k.approach, k.rate]
  }

  lemma PathOfInjective(k: Ids.Key, j: Ids.Key)
    requires PathOf(k) == PathOf(j)
    ensures k == j
  {
    assert forall i :: 0 <= i < 4 ==> PathOf(k)[i] == PathOf(j)[i];
    assert PathOf(k)[0] == k.model && PathOf(k)[1] == k.system && PathOf(k)[2] == k.approach && PathOf(k)[3] == k.rate;
  }

  /** The records with the key, in file order. */
  function Matching(lines: seq<Line>, k: Ids.Key): seq<Record> {
    if lines == [] then []
    else
      var last := lines[|lines| - 1];
      Matching(lines[..|lines| - 1], k) + if KeyOf(last) == Some(k) then [last.record] else []
  }

  function Leaf(records: seq<Record>): Node {
    if records == [] then NEW else List(seq(|records|, i requires 0 <= i < |records| => Single(records[i])))
  }

  /** The table holds under each key exactly the records with it, and nothing else. */
  ghost predicate Groups(table: Node, lines: seq<Line>) {
    Open(table, 4) && forall k: Ids.Key :: Get(table, PathOf(k)) == Leaf(Matching(lines, k))
  }

  class Results {
    var table: Node

    constructor ()
      ensures table == NEW
    {
      table := NEW;
    }

    /** Adds the record to the list under the path. paired reports that a table was found there in
        place of a list. */
    method Add(path: seq<string>, record: Record) returns (paired: bool)
      modifies this
      ensures table == Put(old(table), path, Joined(Get(old(table), path), record))
      ensures paired <==> Get(old(table), path).Table? && Get(old(table), path) != NEW
    {
      paired := false;
      var current := Get(table, path);
      table := Put(table, path, current);
      PutTwice(old(table), path, current, Joined(current, record));
      if current.List? {
        table := Put(table, path, List(current.items + [Single(record)]));
      } else if current.children != map[] {
        paired := true;
        table := Put(table, path, List([Nested(current), Single(record)]));
      } else {
        table := Put(table, path, List([Single(record)]));
      }
    }
  }

  /** What becomes of the list that the record is added to. */
  function Joined(was: Node, record: Record): Node {
    if was.List? then List(was.items + [Single(record)])
    else if was == NEW then List([Single(record)])
    else List([Nested(was), Single(record)])
  }

  lemma {:induction false} MatchingNext(lines: seq<Line>, line: Line, k: Ids.Key)
    ensures Matching(lines + [line], k) == Matching(lines, k) + if KeyOf(line) == Some(k) then [line.record] else []
  {
    assert (lines + [line])[..|lines|] == lines;
  }

  lemma GroupsSkip(table: Node, lines: seq<Line>, line: Line)
    requires Groups(table, lines) && KeyOf(line).None?
    ensures Groups(table, lines + [line])
  {
    forall k: Ids.Key ensures Get(table, PathOf(k)) == Leaf(Matching(lines + [line], k)) {
      MatchingNext(lines, line, k);
    }
  }

  lemma {:induction false} GroupsAdd(table: Node, lines: seq<Line>, line: Line, key: Ids.Key)
    requires Groups(table, lines) && KeyOf(line) == Some(key)
    ensures Groups(Put(table, PathOf(key), Joined(Get(table, PathOf(key)), line.record)), lines + [line])
  {
    var leaf := Joined(Get(table, PathOf(key)), line.record);
    var after := Put(table, PathOf(key), leaf);
    GetShaped(table, PathOf(key));
    ShapedPut(table, PathOf(key), leaf);
    forall k: Ids.Key ensures Get(after, PathOf(k)) == Leaf(Matching(lines + [line], k)) {
      MatchingNext(lines, line, k);
      assert Get(table, PathOf(k)) == Leaf(Matching(lines, k));
      if k == key {
        GetPut(table, PathOf(key), leaf);
        LeafNext(Matching(lines, k), line.record);
      } else {
        if PathOf(k) == PathOf(key) { PathOfInjective(k, key); }
        GetOther(table, PathOf(key), leaf, PathOf(k));
      }
    }
  }

  lemma LeafNext(records: seq<Record>, r: Record)
    ensures Leaf(records + [r]) == Joined(Leaf(records), r)
  {
    if records != [] { assert Leaf(records + [r]).items == Leaf(records).items + [Single(r)]; }
  }

  /** Reading a benchmark log; the branch for an existing single record is never taken. */
  method ParseBenchmarkFile(lines: seq<Line>) returns (table: Node, paired: bool)
    ensures Groups(table, lines) && !paired
  {
    var results := new Results();
    paired := false;
    assert Groups(NEW, []) by {
      forall k: Ids.Key ensures Get(NEW, PathOf(k)) == NEW { GetNew(PathOf(k)); }
    }
    for i := 0 to |lines|
      invariant Groups(results.table, lines[..i]) && !paired
    {
      assert lines[..i + 1] == lines[..i] + [lines[i]];
      var key := KeyOf(lines[i]);
      if key.None? {
        GroupsSkip(results.table, lines[..i], lines[i]);
      } else {
        GroupsAdd(results.table, lines[..i], lines[i], key.value);
        GetShaped(results.table, PathOf(key.value));
        var pair := results.Add(PathOf(key.value), lines[i].record);
        paired := paired || pair;
      }
    }
    assert lines[..|lines|] == lines;
    table := results.table;
  }

  lemma {:induction false} GetNew(path: seq<string>)
    ensures Get(NEW, path) == NEW
  {
    if path != [] { GetNew(path[1..]); }
  }

  // ---------------------------------------------------------------- no record lost or duplicated

  /** The line's record stands in the list of its key after those of the earlier lines. */
  lemma {:induction false} RecordPlaced(lines: seq<Line>, i: nat, k: Ids.Key)
    requires i < |lines| && KeyOf(lines[i]) == Some(k)
    ensures |Matching(lines[..i], k)| < |Matching(lines, k)|
    ensures Matching(lines, k)[|Matching(lines[..i], k)|] == lines[i].record
  {
    var n := |lines| - 1;
    var before, last := lines[..n], lines[n];
    assert lines == before + [last];
    MatchingNext(before, last, k);
    if i < n {
      RecordPlaced(before, i, k);
      assert before[..i] == lines[..i];
      StaysAt(Matching(before, k), Matching(lines, k), |Matching(lines[..i], k)|);
    }
  }

  lemma StaysAt(a: seq<Record>, b: seq<Record>, p: nat)
    requires p < |a| && a <= b
    ensures p < |b| && b[p] == a[p]
  {}

  function Parseable(lines: seq<Line>): nat {
    if lines == [] then 0 else Parseable(lines[..|lines| - 1]) + if KeyOf(lines[|lines| - 1]).Some? then 1 else 0
  }

  ghost function TotalMatching(lines: seq<Line>, keys: seq<Ids.Key>): nat {
    if keys == [] then 0 else TotalMatching(lines, keys[..|keys| - 1]) + |Matching(lines, keys[|keys| - 1])|
  }

  ghost predicate DistinctKeys(keys: seq<Ids.Key>) { forall i, j :: 0 <= i < j < |keys| ==> keys[i] != keys[j] }

  /** Over all keys that occur, the lists together hold as many records as there are parseable lines. */
  lemma {:induction false} NoneLost(lines: seq<Line>, keys: seq<Ids.Key>)
    requires DistinctKeys(keys) && forall i :: 0 <= i < |lines| && KeyOf(lines[i]).Some? ==>
      KeyOf(lines[i]).value in keys
    ensures TotalMatching(lines, keys) == Parseable(lines)
  {
    if lines == [] {
      TotalEmpty(keys);
    } else {
      var n := |lines| - 1;
      NoneLost(lines[..n], keys);
      TotalNext(lines, keys);
    }
  }

  lemma {:induction false} TotalEmpty(keys: seq<Ids.Key>)
    ensures TotalMatching([], keys) == 0
  {
    if keys != [] { TotalEmpty(keys[..|keys| - 1]); }
  }

  lemma {:induction false} TotalNext(lines: seq<Line>, keys: seq<Ids.Key>)
    requires lines != [] && DistinctKeys(keys)
    ensures TotalMatching(lines, keys) == TotalMatching(lines[..|lines| - 1], keys) +
      var key := KeyOf(lines[|lines| - 1]); if key.Some? && key.value in keys then 1 else 0
  {
    if keys != [] { TotalNext(lines, keys[..|keys| - 1]); }
  }

  ghost predicate IsChild(n: Node, name: string, child: Node) {
    n.Table? && name in n.children && n.children[name] == child
  }

  /** The list stands four tables deep: by model, then system, then approach, then rate. */
  lemma {:induction false} FoundByNames(table: Node, lines: seq<Line>, k: Ids.Key)
    returns (models: Node, systems: Node, approaches: Node)
    requires Groups(table, lines) && Matching(lines, k) != []
    ensures IsChild(table, k.model, models) && IsChild(models, k.system, systems)
    ensures IsChild(systems, k.approach, approaches) && IsChild(approaches, k.rate, Leaf(Matching(lines, k)))
  {
    var records := Matching(lines, k);
    assert Get(table, PathOf(k)) == Leaf(records);
    models := Below(table, k.model, PathOf(k), [k.system, k.approach, k.rate], records);
    systems := Below(models, k.system, [k.system, k.approach, k.rate], [k.approach, k.rate], records);
    approaches := Below(systems, k.approach, [k.approach, k.rate], [k.rate], records);
    var leaf := Below(approaches, k.rate, [k.rate], [], records);
  }

  lemma {:induction false} Below(n: Node, name: string, path: seq<string>, rest: seq<string>, records: seq<Record>)
    returns (child: Node)
    requires path == [name] + rest && Get(n, path) == Leaf(records) && records != []
    ensures IsChild(n, name, child) && Get(child, rest) == Leaf(records)
  {
    child := Child(n, name);
    assert path[1..] == rest;
    GetNew(rest);
  }

  // ---------------------------------------------------------------- single runs

  type Runs = map<string, map<string, Record>>

  function Stored(runs: Runs, model: string, workload: string): Option<Record> {
    if model in runs && workload in runs[model] then Some(runs[model][workload]) else None
  }

  function IsoKeyOf(line: Line): Option<(string, string)> {
    if line.Json? then Ids.ParseIsoKey(line.record.id) else None
  }

  /** The last record of the file with the model and workload. */
  function LastWith(lines: seq<Line>, model: string, workload: string): Option<Record> {
    if lines == [] then None
    else if IsoKeyOf(lines[|lines| - 1]) == Some((model, workload)) then Some(lines[|lines| - 1].record)
    else LastWith(lines[..|lines| - 1], model, workload)
  }

  ghost predicate IsLastWith(lines: seq<Line>, i: nat, model: string, workload: string)
    requires i < |lines|
  {
    IsoKeyOf(lines[i]) == Some((model, workload))
    && forall l :: i < l < |lines| ==> IsoKeyOf(lines[l]) != Some((model, workload))
  }

  /** A record is stored exactly when some line has the model and workload, and it is the last such line's. */
  lemma {:induction false} LastWithExact(lines: seq<Line>, model: string, workload: string)
    ensures LastWith(lines, model, workload).Some? <==>
      exists i :: 0 <= i < |lines| && IsoKeyOf(lines[i]) == Some((model, workload))
    ensures forall i :: 0 <= i < |lines| && IsLastWith(lines, i, model, workload) ==>
        LastWith(lines, model, workload) == Some(lines[i].record)
  {
    if lines != [] {
      var before, n := lines[..|lines| - 1], |lines| - 1;
      LastWithExact(before, model, workload);
      forall i | 0 <= i < n ensures before[i] == lines[i] {}
      if IsoKeyOf(lines[n]) != Some((model, workload)) {
        forall i | 0 <= i < n && IsLastWith(lines, i, model, workload)
          ensures IsLastWith(before, i, model, workload)
        {}
      }
    }
  }

  method ParseIsoFile(lines: seq<Line>) returns (runs: Runs)
    ensures forall m, w :: Stored(runs, m, w) == LastWith(lines, m, w)
  {
    runs := map[];
    for i := 0 to |lines|
      invariant forall m, w :: Stored(runs, m, w) == LastWith(lines[..i], m, w)
    {
      assert lines[..i + 1][..i] == lines[..i];
      var key := IsoKeyOf(lines[i]);
      if key.Some? {
        var (model, workload) := key.value;
        var row := if model in runs then runs[model] else map[];
        runs := runs[model := row[workload := lines[i].record]];
      }
    }
    assert lines[..|lines|] == lines;
  }
}
