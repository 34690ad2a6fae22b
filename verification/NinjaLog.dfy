/** Reading a build log: which lines make up the last build, and which target each line joins
    (rps-serve/tools/report_build_time_ninja.py, ReadTargets). */
module NinjaLog {
  import opened BuildTimes

  /** A log line after it is split at tabs: too few or too many fields, a time that is not an
      integer, or a record with times in milliseconds. */
  datatype Line = Malformed | BadNumber | Entry(startMs: int, endMs: int, name: string, cmdhash: string)

  datatype Record = Record(start: real, end: real, name: string, cmdhash: string)

  datatype Group = Group(start: real, end: real, names: seq<string>)

  /** The target dictionary: its keys in insertion order and its values. */
  datatype Table = Table(order: seq<string>, groups: map<string, Group>)

  function Seconds(ms: int): real { ms as real / 1000.0 }

  function EntryRecord(line: Line): Record
    requires line.Entry?
  {
    Record(Seconds(line.startMs), Seconds(line.endMs), line.name, line.cmdhash)
  }

  /** The well-formed lines, in order. */
  function Records(lines: seq<Line>): seq<Record> {
    if lines == [] then []
    else
      var n := |lines| - 1;
      Records(lines[..n])
      + if lines[n].Entry? then [EntryRecord(lines[n])] else []
  }

  const EMPTY := Table([], map[])

  function Add(t: Table, r: Record): Table {
    if r.cmdhash in t.groups then
      var g := t.groups[r.cmdhash];
      t.(groups := t.groups[r.cmdhash := g.(names := g.names + [r.name])])
    else
      Table(t.order + [r.cmdhash], t.groups[r.cmdhash := Group(r.start, r.end, [r.name])])
  }

  /** Records grouped by hash, with nothing thrown away. */
  function GroupUp(rs: seq<Record>): Table {
    if rs == [] then EMPTY else Add(GroupUp(rs[..|rs| - 1]), rs[|rs| - 1])
  }

  /** The table that a record is added to, after the two tests for a new build. */
  function Restart(t: Table, lastEnd: real, r: Record, showAll: bool): Table {
    var t1 := if !showAll && r.end < lastEnd then EMPTY else t;
    if !showAll && r.cmdhash in t1.groups &&
      (t1.groups[r.cmdhash].start != r.start || t1.groups[r.cmdhash].end != r.end)
    then EMPTY else t1
  }

  function LastEnd(rs: seq<Record>): real { if rs == [] then 0.0 else rs[|rs| - 1].end }

  function Read(rs: seq<Record>, showAll: bool): Table {
    if rs == [] then EMPTY
    else
      var before, r := rs[..|rs| - 1], rs[|rs| - 1];
      Add(Restart(Read(before, showAll), LastEnd(before), r, showAll), r)
  }

  // ---------------------------------------------------------------- grouping

  /** The names of the records with hash h, in log order. */
  ghost function NamesOf(rs: seq<Record>, h: string): seq<string> {
    if rs == [] then []
    else NamesOf(rs[..|rs| - 1], h) + if rs[|rs| - 1].cmdhash == h then [rs[|rs| - 1].name] else []
  }

  ghost predicate Mentions(rs: seq<Record>, h: string) {
    exists i :: 0 <= i < |rs| && rs[i].cmdhash == h
  }

  /** Every hash has one group, holding the names of its records in order. */
  lemma {:induction false} GroupUpContents(rs: seq<Record>, h: string)
    ensures h in GroupUp(rs).groups <==> Mentions(rs, h)
    ensures h in GroupUp(rs).order <==> Mentions(rs, h)
    ensures h in GroupUp(rs).groups ==> GroupUp(rs).groups[h].names == NamesOf(rs, h)
    ensures !Mentions(rs, h) ==> NamesOf(rs, h) == []
  {
    if rs != [] {
      var n := |rs| - 1;
      GroupUpContents(rs[..n], h);
      assert Mentions(rs, h) <==> Mentions(rs[..n], h) || rs[n].cmdhash == h by {
        if Mentions(rs[..n], h) { var i :| 0 <= i < n && rs[..n][i].cmdhash == h; assert rs[i].cmdhash == h; }
        if Mentions(rs, h) && rs[n].cmdhash != h {
          var i :| 0 <= i < |rs| && rs[i].cmdhash == h;
          assert rs[..n][i].cmdhash == h;
        }
      }
    }
  }

  lemma {:induction false} GroupUpDistinct(rs: seq<Record>)
    ensures var o := GroupUp(rs).order; forall i, j :: 0 <= i < j < |o| ==> o[i] != o[j]
  {
    if rs != [] {
      var n := |rs| - 1;
      GroupUpDistinct(rs[..n]);
      GroupUpContents(rs[..n], rs[n].cmdhash);
    }
  }

  // ---------------------------------------------------------------- the last build

  /** Log lines that one build could have written: end times never go back, and a command that
      appears again has the same times. */
  ghost predicate OneBuild(rs: seq<Record>) {
    && (forall i, j :: 0 <= i < j < |rs| ==> rs[i].end <= rs[j].end)
    && (forall i, j :: 0 <= i < j < |rs| && rs[i].cmdhash == rs[j].cmdhash ==>
        rs[i].start == rs[j].start && rs[i].end == rs[j].end)
  }

  ghost predicate Conflict(rs: seq<Record>, r: Record) {
    || (rs != [] && r.end < rs[|rs| - 1].end)
    || (exists i :: 0 <= i < |rs| && rs[i].cmdhash == r.cmdhash && (rs[i].start != r.start || rs[i].end != r.end))
  }

  lemma ConflictBreaks(rs: seq<Record>, r: Record)
    requires OneBuild(rs)
    ensures OneBuild(rs + [r]) <==> !Conflict(rs, r)
  {
    var all := rs + [r];
    if OneBuild(all) {
      assert forall i :: 0 <= i < |rs| ==> all[i] == rs[i] && all[|rs|] == r;
    }
  }

  /** Where the last build begins: the last record that conflicts with the build before it. */
  ghost function Cut(rs: seq<Record>): (c: nat)
    ensures c <= |rs| && (rs != [] ==> c < |rs|)
  {
    if rs == [] then 0
    else
      var n := |rs| - 1;
      var c := Cut(rs[..n]);
      if Conflict(rs[..n][c..], rs[n]) then n else c
  }

  ghost predicate HasTimes(t: Table, r: Record) {
    r.cmdhash in t.groups && t.groups[r.cmdhash].start == r.start && t.groups[r.cmdhash].end == r.end
  }

  /** In a group of one build the group's times are those of each of its records. */
  lemma {:induction false} GroupTimes(rs: seq<Record>, k: int)
    requires OneBuild(rs) && 0 <= k < |rs|
    ensures HasTimes(GroupUp(rs), rs[k])
  {
    var n := |rs| - 1;
    var before, r := rs[..n], rs[n];
    OneBuildBefore(rs, before);
    if k < n {
      GroupTimes(before, k);
      AddTimes(GroupUp(before), r, rs[k]);
    } else if r.cmdhash in GroupUp(before).groups {
      GroupUpContents(before, r.cmdhash);
      var i :| 0 <= i < n && before[i].cmdhash == r.cmdhash;
      GroupTimes(before, i);
      SameTimes(rs, i, n);
    }
  }

  lemma OneBuildBefore(rs: seq<Record>, before: seq<Record>)
    requires OneBuild(rs) && rs != [] && before == rs[..|rs| - 1]
    ensures OneBuild(before)
  {
    assert forall i :: 0 <= i < |before| ==> before[i] == rs[i];
  }

  lemma AddTimes(t: Table, r: Record, r': Record)
    requires HasTimes(t, r')
    ensures HasTimes(Add(t, r), r')
  {}

  lemma SameTimes(rs: seq<Record>, i: nat, j: nat)
    requires OneBuild(rs) && i < j < |rs| && rs[i].cmdhash == rs[j].cmdhash
    ensures rs[i].start == rs[j].start && rs[i].end == rs[j].end
  {}

  /** Without show_all, what is read is exactly the grouping of the records from the cut on. */
  lemma {:induction false} ReadIsLastBuild(rs: seq<Record>)
    ensures Read(rs, false) == GroupUp(rs[Cut(rs)..])
    ensures OneBuild(rs[Cut(rs)..])
  {
    if rs != [] {
      var before, r := rs[..|rs| - 1], rs[|rs| - 1];
      var seg := before[Cut(before)..];
      ReadIsLastBuild(before);
      CutNext(rs, before, seg, r);
      ConflictBreaks(seg, r);
      RestartOnConflict(seg, LastEnd(before), r);
      GroupNext(seg, r);
      GroupNext([], r);
    }
  }

  lemma {:induction false} CutNext(rs: seq<Record>, before: seq<Record>, seg: seq<Record>, r: Record)
    requires rs != [] && before == rs[..|rs| - 1] && r == rs[|rs| - 1] && seg == before[Cut(before)..]
    ensures rs[Cut(rs)..] == (if Conflict(seg, r) then [] else seg) + [r]
    ensures seg != [] ==> seg[|seg| - 1].end == LastEnd(before)
  {
    SliceEnds(rs, before, Cut(before), seg, r);
  }

  lemma SliceEnds(rs: seq<Record>, before: seq<Record>, c: nat, seg: seq<Record>, r: Record)
    requires rs != [] && before == rs[..|rs| - 1] && r == rs[|rs| - 1] && c <= |before| && seg == before[c..]
    ensures rs[c..] == seg + [r] && rs[|before|..] == [] + [r]
    ensures seg != [] ==> seg[|seg| - 1].end == LastEnd(before)
  {
    assert rs == before + [r];
  }

  lemma {:induction false} GroupNext(seg: seq<Record>, r: Record)
    ensures GroupUp(seg + [r]) == Add(GroupUp(seg), r)
  {
    assert (seg + [r])[..|seg|] == seg;
  }

  lemma {:induction false} RestartOnConflict(seg: seq<Record>, lastEnd: real, r: Record)
    requires OneBuild(seg) && (seg != [] ==> lastEnd == seg[|seg| - 1].end)
    ensures Restart(GroupUp(seg), lastEnd, r, false) == if Conflict(seg, r) then EMPTY else GroupUp(seg)
  {
    GroupUpContents(seg, r.cmdhash);
    forall k | 0 <= k < |seg| ensures HasTimes(GroupUp(seg), seg[k]) { GroupTimes(seg, k); }
    RestartTable(seg, GroupUp(seg), lastEnd, r);
  }

  lemma RestartTable(seg: seq<Record>, t: Table, lastEnd: real, r: Record)
    requires seg != [] ==> lastEnd == seg[|seg| - 1].end
    requires r.cmdhash in t.groups <==> Mentions(seg, r.cmdhash)
    requires seg == [] ==> t == EMPTY
    requires forall k :: 0 <= k < |seg| ==> HasTimes(t, seg[k])
    ensures Restart(t, lastEnd, r, false) == if Conflict(seg, r) then EMPTY else t
  {}

  /** Record c could not continue a build that runs from record b up to it. */
  ghost predicate Cause(rs: seq<Record>, b: nat, c: nat) {
    b < c < |rs| && OneBuild(rs[b..c]) && !OneBuild(rs[b..c + 1])
  }

  /** Records are thrown away only for cause: the kept part starts with a record that could not
      continue the build before it. In particular a log of one build is kept whole. */
  lemma {:induction false} CutHasCause(rs: seq<Record>)
    ensures Cut(rs) > 0 ==> exists b: nat :: Cause(rs, b, Cut(rs))
    ensures OneBuild(rs) ==> Cut(rs) == 0
  {
    if rs != [] {
      var n := |rs| - 1;
      var before := rs[..n];
      var c := Cut(before);
      CutHasCause(before);
      if Conflict(before[c..], rs[n]) {
        if n > 0 { FreshCause(rs, before, c, before[c..]); }
      } else if c > 0 {
        OldCause(rs, before, c);
      }
      if b: nat :| Cause(rs, b, Cut(rs)) { CauseBreaks(rs, b, Cut(rs)); }
    }
  }

  lemma OldCause(rs: seq<Record>, before: seq<Record>, c: nat)
    requires rs != [] && before == rs[..|rs| - 1] && exists b: nat :: Cause(before, b, c)
    ensures exists b: nat :: Cause(rs, b, c)
  {
    var b: nat :| Cause(before, b, c);
    assert before[b..c] == rs[b..c] && before[b..c + 1] == rs[b..c + 1];
    assert Cause(rs, b, c);
  }

  lemma {:induction false} FreshCause(rs: seq<Record>, before: seq<Record>, c: nat, seg: seq<Record>)
    requires |rs| > 1 && before == rs[..|rs| - 1] && c == Cut(before)
    requires seg == before[c..] && Conflict(seg, rs[|before|])
    ensures exists b: nat :: Cause(rs, b, |before|)
  {
    ReadIsLastBuild(before);
    ConflictBreaks(seg, rs[|before|]);
    IsCause(rs, c, |before|, seg);
  }

  lemma IsCause(rs: seq<Record>, b: nat, c: nat, seg: seq<Record>)
    requires b < c < |rs| && seg == rs[b..c] && OneBuild(seg) && !OneBuild(seg + [rs[c]])
    ensures Cause(rs, b, c)
  {
    assert rs[b..c + 1] == seg + [rs[c]];
  }

  lemma CauseBreaks(rs: seq<Record>, b: nat, c: nat)
    requires Cause(rs, b, c)
    ensures !OneBuild(rs)
  {
    var part := rs[b..c + 1];
    assert forall i :: 0 <= i < |part| ==> part[i] == rs[b + i];
  }

  lemma {:induction false} ReadAllKeepsAll(rs: seq<Record>)
    ensures Read(rs, true) == GroupUp(rs)
  {
    if rs != [] { ReadAllKeepsAll(rs[..|rs| - 1]); }
  }

  // ---------------------------------------------------------------- what a line contributes

  /** A well-formed line gives one record, its times in seconds; any other line gives none. */
  lemma {:induction false} RecordsOne(line: Line)
    ensures Records([line]) == match line
      case Entry(startMs, endMs, name, cmdhash) =>
        [Record(startMs as real / 1000.0, endMs as real / 1000.0, name, cmdhash)]
      case _ => []
  {
    assert Records([line][..0]) == [];
  }

  lemma {:induction false} RecordsJoin(a: seq<Line>, b: seq<Line>)
    ensures Records(a + b) == Records(a) + Records(b)
  {
    if b == [] {
      assert a + b == a;
    } else {
      var n := |b| - 1;
      assert (a + b)[..|a| + n] == a + b[..n];
      RecordsJoin(a, b[..n]);
    }
  }

  lemma {:induction false} NamesJoin(a: seq<Record>, b: seq<Record>, h: string)
    ensures NamesOf(a + b, h) == NamesOf(a, h) + NamesOf(b, h)
  {
    if b == [] {
      assert a + b == a;
    } else {
      var n := |b| - 1;
      assert (a + b)[..|a| + n] == a + b[..n];
      NamesJoin(a, b[..n], h);
    }
  }

  lemma {:induction false} NamesOne(r: Record, h: string)
    ensures NamesOf([r], h) == if r.cmdhash == h then [r.name] else []
  {
    assert NamesOf([r][..0], h) == [];
  }

  ghost predicate IsPrefix(o: seq<string>, p: seq<string>) { |o| <= |p| && forall i :: 0 <= i < |o| ==> p[i] == o[i] }

  /** Later records add new hashes at the end only: the groups stand in the order of their first mention. */
  lemma {:induction false} OrderGrows(a: seq<Record>, b: seq<Record>)
    ensures IsPrefix(GroupUp(a).order, GroupUp(a + b).order)
  {
    if b == [] {
      assert a + b == a;
    } else {
      var n := |b| - 1;
      assert (a + b)[..|a| + n] == a + b[..n];
      OrderGrows(a, b[..n]);
    }
  }

  /** A group has the times of the first record with its hash. */
  lemma {:induction false} FirstTimes(rs: seq<Record>, i: nat)
    requires i < |rs| && forall l :: 0 <= l < i ==> rs[l].cmdhash != rs[i].cmdhash
    ensures HasTimes(GroupUp(rs), rs[i])
  {
    var n := |rs| - 1;
    if i < n {
      FirstTimes(rs[..n], i);
      AddTimes(GroupUp(rs[..n]), rs[n], rs[i]);
    } else {
      GroupUpContents(rs[..n], rs[n].cmdhash);
    }
  }

  /** One step that ends at two seconds, then one that ends at one second: that is a new build, and only
      it is read unless all builds are asked for. */
  lemma {:induction false} TwoBuilds()
    ensures var lines := [Entry(0, 2000, "a", "1"), Malformed, Entry(500, 1000, "b", "2")];
      && Read(Records(lines), false) == Table(["2"], map["2" := Group(0.5, 1.0, ["b"])])
      && Read(Records(lines), true) ==
           Table(["1", "2"], map["1" := Group(0.0, 2.0, ["a"]), "2" := Group(0.5, 1.0, ["b"])])
  {
    var first, rest := Entry(0, 2000, "a", "1"), Entry(500, 1000, "b", "2");
    RecordsOfTwo([first, Malformed, rest], first, rest);
    ReadPair(Record(0.0, 2.0, "a", "1"), Record(0.5, 1.0, "b", "2"));
  }

  lemma {:induction false} RecordsOfTwo(lines: seq<Line>, first: Line, rest: Line)
    requires first.Entry? && rest.Entry? && lines == [first, Malformed, rest]
    ensures Records(lines) == [EntryRecord(first), EntryRecord(rest)]
  {
    assert lines == [first] + ([Malformed] + [rest]);
    RecordsJoin([first], [Malformed] + [rest]);
    RecordsJoin([Malformed], [rest]);
    RecordsOne(first);
    RecordsOne(Malformed);
    RecordsOne(rest);
  }

  lemma {:induction false} ReadPair(a: Record, b: Record)
    requires b.end < a.end && a.cmdhash != b.cmdhash
    ensures Read([a, b], false) == Table([b.cmdhash], map[b.cmdhash := Group(b.start, b.end, [b.name])])
    ensures Read([a, b], true) ==
      Table([a.cmdhash, b.cmdhash],
            map[a.cmdhash := Group(a.start, a.end, [a.name]), b.cmdhash := Group(b.start, b.end, [b.name])])
  {
    assert [a, b] == [a] + [b] && [] + [a] == [a];
    ReadNext([], a, true);
    ReadNext([], a, false);
    ReadNext([a], b, true);
    ReadNext([a], b, false);
    assert Read([a], true) == Table([a.cmdhash], map[a.cmdhash := Group(a.start, a.end, [a.name])]);
  }

  /** The same command at other times begins a new build, at the same times it does not. */
  lemma {:induction false} SameCommand(a: Record, b: Record, again: bool)
    requires a.cmdhash == b.cmdhash && b.end >= a.end && (again <==> a.start == b.start && a.end == b.end)
    ensures Read([a, b], false) ==
      Table([b.cmdhash], map[b.cmdhash := Group(b.start, b.end, if again then [a.name, b.name] else [b.name])])
  {
    assert [a, b] == [a] + [b] && [] + [a] == [a];
    ReadNext([], a, false);
    ReadNext([a], b, false);
    var one := Table([a.cmdhash], map[a.cmdhash := Group(a.start, a.end, [a.name])]);
    assert Read([a], false) == one;
    assert Restart(one, a.end, b, false) == if again then one else EMPTY;
    assert Read([a, b], false) == Add(if again then one else EMPTY, b);
    AddSame(one, a, b);
    assert [a.name] + [b.name] == [a.name, b.name];
  }

  lemma AddSame(t: Table, a: Record, b: Record)
    requires a.cmdhash == b.cmdhash && t == Table([a.cmdhash], map[a.cmdhash := Group(a.start, a.end, [a.name])])
    ensures Add(t, b) == Table([a.cmdhash], map[a.cmdhash := Group(a.start, a.end, [a.name] + [b.name])])
    ensures Add(EMPTY, b) == Table([b.cmdhash], map[b.cmdhash := Group(b.start, b.end, [b.name])])
  {}

  // ---------------------------------------------------------------- reading the file

  datatype Result = Targets(targets: seq<Target>) | AssertionError | ValueError

  ghost predicate IsGroup(t: Target, g: Group)
    reads t
  {
    t.start == g.start && t.end == g.end && t.targets == g.names
  }

  /** dict holds one target object for each group of the table. */
  ghost predicate Represents(dict: map<string, Target>, order: seq<string>, table: Table)
    reads dict.Values
  {
    && order == table.order && dict.Keys == table.groups.Keys
    && (forall h :: h in dict ==> dict[h] in dict.Values && IsGroup(dict[h], table.groups[h]))
    && (forall h, k :: h in dict && k in dict && h != k ==> dict[h] != dict[k])
  }

  lemma ReadSnoc(lines: seq<Line>, i: nat)
    requires i < |lines|
    ensures Records(lines[..i + 1]) ==
      if lines[i].Entry? then Records(lines[..i]) + [EntryRecord(lines[i])] else Records(lines[..i])
  {
    assert Records(lines[..i]) + [] == Records(lines[..i]);
    assert lines[..i + 1][..i] == lines[..i];
  }

  lemma {:induction false} ReadNext(rs: seq<Record>, r: Record, showAll: bool)
    ensures Read(rs + [r], showAll) == Add(Restart(Read(rs, showAll), LastEnd(rs), r, showAll), r)
  {
    assert (rs + [r])[..|rs|] == rs;
  }

  /** The two tests for a new build: either drop what was read so far or keep it. */
  method StartOver(dict: map<string, Target>, order: seq<string>, lastEndSeen: real, rec: Record, showAll: bool,
                   ghost table: Table)
    returns (dict': map<string, Target>, order': seq<string>)
    requires Represents(dict, order, table)
    ensures Represents(dict', order', Restart(table, lastEndSeen, rec, showAll))
    ensures forall h :: h in dict' ==> h in dict && dict'[h] == dict[h]
  {
    dict', order' := dict, order;
    if !showAll && rec.end < lastEndSeen {
      dict', order' := map[], [];
    }
    if rec.cmdhash in dict' && !showAll &&
      (dict'[rec.cmdhash].start != rec.start || dict'[rec.cmdhash].end != rec.end) {
      dict', order' := map[], [];
    }
  }

  /** The record's name goes to the target with its hash, made now if there is none. */
  method AddRecord(dict: map<string, Target>, order: seq<string>, rec: Record, ghost table: Table)
    returns (dict': map<string, Target>, order': seq<string>)
    requires Represents(dict, order, table)
    modifies dict.Values`targets
    ensures Represents(dict', order', Add(table, rec))
    ensures forall h :: h in dict' ==>
      if h in dict then dict'[h] == dict[h] else fresh(dict'[h]) && dict'[h].weightedDuration == 0.0
  {
    dict', order' := dict, order;
    if rec.cmdhash !in dict {
      var target := new Target(rec.start, rec.end);
      dict', order' := dict[rec.cmdhash := target], order + [rec.cmdhash];
    }
    var target := dict'[rec.cmdhash];
    target.targets := target.targets + [rec.name];
  }

  method ReadTargets(headerOk: bool, lines: seq<Line>, showAll: bool) returns (r: Result)
    ensures r.AssertionError? <==> !headerOk
    ensures r.ValueError? <==> headerOk && BadNumber in lines
    ensures r.Targets? ==> IsTargetList(r.targets, Read(Records(lines), showAll))
    ensures r.Targets? ==> Distinct(r.targets)
    ensures r.Targets? ==> forall t :: t in r.targets ==> fresh(t) && t.weightedDuration == 0.0
  {
    if !headerOk {
      return Result.AssertionError;
    }
    var dict: map<string, Target> := map[];
    var order: seq<string> := [];
    var lastEndSeen := 0.0;
    ghost var rs: seq<Record> := [];
    for n := 0 to |lines|
      invariant BadNumber !in lines[..n]
      invariant rs == Records(lines[..n]) && lastEndSeen == LastEnd(rs)
      invariant Represents(dict, order, Read(rs, showAll))
      invariant forall h :: h in dict ==> fresh(dict[h]) && dict[h].weightedDuration == 0.0
    {
      ReadSnoc(lines, n);
      if lines[n].BadNumber? {
        return ValueError;
      }
      if lines[n].Entry? {
        var rec := EntryRecord(lines[n]);
        ReadNext(rs, rec, showAll);
        ghost var table := Read(rs, showAll);
        dict, order := StartOver(dict, order, lastEndSeen, rec, showAll, table);
        table := Restart(table, lastEndSeen, rec, showAll);
        dict, order := AddRecord(dict, order, rec, table);
        lastEndSeen := rec.end;
        rs := rs + [rec];
      }
    }
    assert lines[..|lines|] == lines;
    GroupsDistinct(rs, showAll);
    r := Targets(InOrder(dict, order));
    ListRepresents(dict, order, Read(rs, showAll));
  }

  function InOrder(dict: map<string, Target>, order: seq<string>): (ts: seq<Target>)
    requires forall i :: 0 <= i < |order| ==> order[i] in dict
  {
    seq(|order|, i requires 0 <= i < |order| => dict[order[i]])
  }

  lemma ListRepresents(dict: map<string, Target>, order: seq<string>, table: Table)
    requires Represents(dict, order, table) && forall i :: 0 <= i < |order| ==> order[i] in dict
    requires forall i, j :: 0 <= i < j < |order| ==> order[i] != order[j]
    ensures IsTargetList(InOrder(dict, order), table) && Distinct(InOrder(dict, order))
    ensures forall t :: t in InOrder(dict, order) ==> exists h :: h in dict && dict[h] == t
  {}

  /** One target for each group, in the order the groups were first seen. */
  ghost predicate IsTargetList(targets: seq<Target>, table: Table)
    reads targets
  {
    && |targets| == |table.order|
    && (forall i :: 0 <= i < |targets| ==>
        table.order[i] in table.groups && IsGroup(targets[i], table.groups[table.order[i]]))
  }

  lemma {:induction false} GroupsDistinct(rs: seq<Record>, showAll: bool)
    ensures var o := Read(rs, showAll).order; forall i, j :: 0 <= i < j < |o| ==> o[i] != o[j]
    ensures forall i :: 0 <= i < |Read(rs, showAll).order| ==> Read(rs, showAll).order[i] in Read(rs, showAll).groups
  {
    var kept := if showAll then rs else rs[Cut(rs)..];
    GroupUpDistinct(kept);
    ReadAllKeepsAll(rs);
    ReadIsLastBuild(rs);
    forall i | 0 <= i < |GroupUp(kept).order| ensures GroupUp(kept).order[i] in GroupUp(kept).groups {
      GroupUpContents(kept, GroupUp(kept).order[i]);
    }
  }
}
