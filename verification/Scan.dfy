/** The directory scan: analyses arrive in any order and are inserted in one transaction. */
module Scans {
  import opened Options

  /**
   One message of the analysis threads. A row is keyed by its path; `Fatal` stands for every error that ends the scan,
   of the analysis or of an insert that fails for another reason than a constraint.
   */
  datatype Arrival = Analysed(path: string, data: int) | Undecodable | Fatal(code: int)

  /** A discovered file: its path if it is valid text, and what analysing it will yield. */
  datatype File = File(path: Option<string>, analysis: Arrival)

  type Table = map<string, int>

  datatype Result = Indexed(count: nat) | Failed

  // ---------- Inserting ----------

  datatype Inserted = Inserted(rows: Table, count: nat)

  /** A row whose path is taken violates the constraint and is skipped. */
  function InsertOne(s: Inserted, a: Arrival): Inserted {
    if a.Analysed? && a.path !in s.rows then Inserted(s.rows[a.path := a.data], s.count + 1) else s
  }

  function InsertAll(rows: Table, arrivals: seq<Arrival>): Inserted {
    if arrivals == [] then Inserted(rows, 0)
    else InsertOne(InsertAll(rows, arrivals[..|arrivals| - 1]), arrivals[|arrivals| - 1])
  }

  predicate HasFatal(arrivals: seq<Arrival>) { exists a :: a in arrivals && a.Fatal? }

  /** The files not indexed yet; a path that is not valid text is never taken for indexed. */
  function NewFiles(files: seq<File>, rows: Table): seq<File> {
    if files == [] then []
    else
      var rest, f := NewFiles(files[..|files| - 1], rows), files[|files| - 1];
      if f.path.Some? && f.path.value in rows then rest else rest + [f]
  }

  function Analyses(files: seq<File>): seq<Arrival> { seq(|files|, i requires 0 <= i < |files| => files[i].analysis) }

  /** In the order of discovery, exactly the files whose path is not stored yet are analysed. */
  lemma {:induction false} NewFilesInOrder(files: seq<File>, rows: Table) returns (places: seq<nat>)
    ensures var news := NewFiles(files, rows);
            && |places| == |news| &&
               (forall i :: 0 <= i < |places| ==> places[i] < |files| && news[i] == files[places[i]])
            && (forall i, j :: 0 <= i < j < |places| ==> places[i] < places[j])
    ensures forall k :: 0 <= k < |files| ==> (k in places <==> files[k].path.None? || files[k].path.value !in rows)
    decreases |files|
  {
    places := [];
    if files != [] {
      var n := |files| - 1;
      places := NewFilesInOrder(files[..n], rows);
      assert forall k :: 0 <= k < n ==> files[..n][k] == files[k];
      if files[n].path.None? || files[n].path.value !in rows { places := places + [n]; }
    }
  }

  // ---------- What the final table is ----------

  function Paths(arrivals: seq<Arrival>): set<string> { set a | a in arrivals && a.Analysed? :: a.path }

  function PathOf(a: Arrival): set<string> { if a.Analysed? then {a.path} else {} }

  lemma PathsPush(arrivals: seq<Arrival>, a: Arrival)
    ensures Paths(arrivals + [a]) == Paths(arrivals) + PathOf(a)
  {}

  lemma OldPath(base: set<string>, paths: set<string>, path: string)
    requires path in base || path in paths
    ensures paths + {path} - base == paths - base && base + (paths + {path}) == base + paths
  {
  }

  lemma NewPath(base: set<string>, paths: set<string>, path: string)
    requires path !in base && path !in paths
    ensures paths + {path} - base == (paths - base) + {path} && |paths + {path} - base| == |paths - base| + 1
    ensures base + (paths + {path}) == base + paths + {path}
  {
  }

  lemma KeysPush(rows: Table, path: string, data: int)
    ensures rows[path := data].Keys == rows.Keys + {path}
  {
  }

  lemma InsertOneCounts(s: Inserted, base: set<string>, paths: set<string>, a: Arrival)
    requires s.rows.Keys == base + paths && s.count == |paths - base|
    ensures var r := InsertOne(s, a); r.rows.Keys == base + (paths + PathOf(a)) && r.count == |paths + PathOf(a) - base|
  {
    if a.Analysed? {
      KeysPush(s.rows, a.path, a.data);
      if a.path in base || a.path in paths { OldPath(base, paths, a.path); } else { NewPath(base, paths, a.path); }
    } else {
      assert paths + {} == paths;
    }
  }

  lemma InsertAllSteps(rows: Table, arrivals: seq<Arrival>)
    ensures InsertAll(rows, arrivals) ==
              if arrivals == [] then Inserted(rows, 0)
              else InsertOne(InsertAll(rows, arrivals[..|arrivals| - 1]), arrivals[|arrivals| - 1])
  {}

  lemma NoPathsBeyond(keys: set<string>)
    ensures keys + Paths([]) == keys && |Paths([]) - keys| == 0
  {}

  /** Which paths end up in the table, and how many were added, does not depend on the order. */
  lemma {:induction false} InsertedPaths(rows: Table, arrivals: seq<Arrival>)
    ensures var r := InsertAll(rows, arrivals);
            r.rows.Keys == rows.Keys + Paths(arrivals) && r.count == |Paths(arrivals) - rows.Keys|
    decreases |arrivals|
  {
    hide InsertOne, PathOf, Paths, InsertAll;
    InsertAllSteps(rows, arrivals);
    if arrivals == [] {
      NoPathsBeyond(rows.Keys);
    } else {
      var n := |arrivals| - 1;
      InsertedPaths(rows, arrivals[..n]);
      PathsPush(arrivals[..n], arrivals[n]);
      assert arrivals == arrivals[..n] + [arrivals[n]];
      InsertOneCounts(InsertAll(rows, arrivals[..n]), rows.Keys, Paths(arrivals[..n]), arrivals[n]);
    }
  }

  lemma InsertOneRow(s: Inserted, a: Arrival, path: string)
    ensures path in s.rows ==> path in InsertOne(s, a).rows && InsertOne(s, a).rows[path] == s.rows[path]
    ensures path !in s.rows && PathOf(a) == {path} ==>
            path in InsertOne(s, a).rows && Analysed(path, InsertOne(s, a).rows[path]) == a
    ensures path in PathOf(a) ==> PathOf(a) == {path}
  {
  }

  lemma NoPaths()
    ensures Paths([]) == {}
  {
  }

  /** Old rows stay; a new row holds what some arrival for its path said. */
  lemma {:induction false} InsertedRows(rows: Table, arrivals: seq<Arrival>, path: string)
    requires path in rows || path in Paths(arrivals)
    ensures var r := InsertAll(rows, arrivals).rows;
            path in r && if path in rows then r[path] == rows[path] else Analysed(path, r[path]) in arrivals
    decreases |arrivals|
  {
    hide InsertOne, PathOf, Paths;
    NoPaths();
    if arrivals != [] {
      var n := |arrivals| - 1;
      InsertedPaths(rows, arrivals[..n]);
      PathsPush(arrivals[..n], arrivals[n]);
      assert arrivals == arrivals[..n] + [arrivals[n]];
      InsertOneRow(InsertAll(rows, arrivals[..n]), arrivals[n], path);
      if path in rows || path in Paths(arrivals[..n]) { InsertedRows(rows, arrivals[..n], path); }
    }
  }

  /** Analyses of the same new path agree; this holds in particular when every path occurs once. */
  ghost predicate Agree(rows: Table, arrivals: seq<Arrival>) {
    forall a, b :: (a in arrivals && b in arrivals && a.Analysed? && b.Analysed? && a.path == b.path &&
                    a.path !in rows) ==> a == b
  }

  lemma SamePaths(first: seq<Arrival>, second: seq<Arrival>)
    requires multiset(first) == multiset(second)
    ensures Paths(first) == Paths(second) && HasFatal(first) == HasFatal(second)
    ensures forall a :: a in first <==> a in second
  {
    assert forall a :: a in first <==> a in multiset(first);
    assert forall a :: a in second <==> a in multiset(second);
  }

  /** Any two arrival orders end in the same rows and the same count, and fail together. */
  lemma OrderDoesNotMatter(rows: Table, first: seq<Arrival>, second: seq<Arrival>)
    requires multiset(first) == multiset(second) && Agree(rows, first)
    ensures InsertAll(rows, first) == InsertAll(rows, second) && HasFatal(first) == HasFatal(second)
  {
    hide InsertAll, Paths, HasFatal;
    SamePaths(first, second);
    InsertedPaths(rows, first);
    InsertedPaths(rows, second);
    var r, s := InsertAll(rows, first).rows, InsertAll(rows, second).rows;
    forall path | path in r ensures r[path] == s[path] {
      InsertedRows(rows, first, path);
      InsertedRows(rows, second, path);
    }
    assert r == s;
  }

  /** The first arrival for a new path decides its row. */
  lemma {:induction false} FirstWins(rows: Table, a: Arrival, rest: seq<Arrival>)
    requires a.Analysed? && a.path !in rows
    ensures var r := InsertAll(rows, [a] + rest).rows; a.path in r && r[a.path] == a.data
    decreases |rest|
  {
    var all := [a] + rest;
    if rest == [] {
      assert all[..0] == [] && InsertAll(rows, []) == Inserted(rows, 0);
    } else {
      FirstWins(rows, a, rest[..|rest| - 1]);
      assert all[..|all| - 1] == [a] + rest[..|rest| - 1];
    }
  }

  /** Some arrival order lets a given arrival come first. */
  lemma FirstInSomeOrder(rows: Table, arrivals: seq<Arrival>, a: Arrival) returns (order: seq<Arrival>)
    requires a in arrivals && a.Analysed? && a.path !in rows
    ensures multiset(order) == multiset(arrivals)
    ensures a.path in InsertAll(rows, order).rows && InsertAll(rows, order).rows[a.path] == a.data
  {
    var i :| 0 <= i < |arrivals| && arrivals[i] == a;
    var rest := arrivals[..i] + arrivals[i + 1..];
    order := [a] + rest;
    assert arrivals == arrivals[..i] + [a] + arrivals[i + 1..];
    FirstWins(rows, a, rest);
  }

  /** The order of arrival does not matter exactly when the analyses of each new path agree. */
  lemma OrderDoesNotMatterIff(rows: Table, arrivals: seq<Arrival>)
    ensures Agree(rows, arrivals) <==>
            forall order: seq<Arrival> :: multiset(order) == multiset(arrivals) ==>
              InsertAll(rows, order) == InsertAll(rows, arrivals)
  {
    hide InsertAll;
    if Agree(rows, arrivals) {
      forall order: seq<Arrival> | multiset(order) == multiset(arrivals)
        ensures InsertAll(rows, order) == InsertAll(rows, arrivals) {
        OrderDoesNotMatter(rows, arrivals, order);
      }
    } else {
      var a, b :| a in arrivals && b in arrivals && a.Analysed? && b.Analysed? && a.path == b.path &&
        a.path !in rows && a != b;
      var first := FirstInSomeOrder(rows, arrivals, a);
      var second := FirstInSomeOrder(rows, arrivals, b);
      assert InsertAll(rows, first).rows[a.path] != InsertAll(rows, second).rows[a.path];
    }
  }

  // ---------- Every new file is added once ----------

  /** The path a row is stored under: a name that is not valid text has the empty one. */
  function RowPath(f: File): string { if f.path.Some? then f.path.value else "" }

  /** Discovery yields each path once and none that is empty, and a row carries the path of its file. */
  ghost predicate Discovered(files: seq<File>) {
    && (forall i :: 0 <= i < |files| ==> files[i].path != Some(""))
    && (forall i :: 0 <= i < |files| && files[i].analysis.Analysed? ==> files[i].analysis.path == RowPath(files[i]))
    && (forall i, j :: 0 <= i < j < |files| && files[i].path.Some? ==> files[i].path != files[j].path)
  }

  /** At most one analysable file without a textual name, and none if an earlier scan stored one. */
  ghost predicate Recordable(files: seq<File>, rows: Table) {
    forall j :: 0 <= j < |files| && files[j].path.None? && files[j].analysis.Analysed? ==>
      "" !in rows && forall i :: 0 <= i < j && files[i].path.None? ==> !files[i].analysis.Analysed?
  }

  function Analysable(files: seq<File>): seq<File> {
    if files == [] then []
    else
      var rest, f := Analysable(files[..|files| - 1]), files[|files| - 1];
      if f.analysis.Analysed? then rest + [f] else rest
  }

  ghost predicate Takes(files: seq<File>, path: string) {
    exists i :: 0 <= i < |files| && files[i].analysis.Analysed? && files[i].analysis.path == path
  }

  /** No analysed row has a path that is taken, by the table or by an earlier file. */
  ghost predicate Separate(files: seq<File>, rows: Table) {
    forall j :: 0 <= j < |files| && files[j].analysis.Analysed? ==>
      files[j].analysis.path !in rows && !Takes(files[..j], files[j].analysis.path)
  }

  lemma SeparatePush(files: seq<File>, rows: Table, f: File)
    ensures Separate(files + [f], rows) <==>
            Separate(files, rows) &&
              (f.analysis.Analysed? ==> f.analysis.path !in rows && !Takes(files, f.analysis.path))
  {
    var all := files + [f];
    assert all[..|files|] == files;
    assert forall j :: 0 <= j < |files| ==> all[j] == files[j] && all[..j] == files[..j];
    if Separate(all, rows) {
      forall j | 0 <= j < |files| && files[j].analysis.Analysed?
        ensures files[j].analysis.path !in rows && !Takes(files[..j], files[j].analysis.path)
      {
        assert all[j] == files[j];
      }
    }
  }

  lemma TakesIsPath(files: seq<File>, path: string)
    ensures Takes(files, path) <==> path in Paths(Analyses(files))
  {
    if i :| 0 <= i < |files| && files[i].analysis.Analysed? && files[i].analysis.path == path {
      assert Analyses(files)[i] == files[i].analysis;
    }
    if path in Paths(Analyses(files)) {
      var a :| a in Analyses(files) && a.Analysed? && a.path == path;
      var i :| 0 <= i < |files| && Analyses(files)[i] == a;
      assert files[i].analysis == a;
    }
  }

  lemma NothingSeparate(rows: Table)
    ensures Separate([], rows)
  {}

  lemma CountOne(keys: set<string>, paths: set<string>, a: Arrival)
    ensures |paths + PathOf(a) - keys| ==
            |paths - keys| + if a.Analysed? && a.path !in keys && a.path !in paths then 1 else 0
  {
    if a.Analysed? {
      if a.path in keys || a.path in paths { OldPath(keys, paths, a.path); } else { NewPath(keys, paths, a.path); }
    } else {
      assert paths + {} == paths;
    }
  }

  lemma NoAnalyses()
    ensures Analyses([]) == []
  {}

  lemma AnalysesPush(files: seq<File>, f: File)
    ensures Analyses(files + [f]) == Analyses(files) + [f.analysis]
  {}

  /** The rows added are never more than the analysable files, and as many exactly when no path is taken twice. */
  lemma {:induction false} AddedAtMostAnalysable(files: seq<File>, rows: Table)
    ensures var added := |Paths(Analyses(files)) - rows.Keys|;
            added <= |Analysable(files)| && (added == |Analysable(files)| <==> Separate(files, rows))
    decreases |files|
  {
    hide Paths, Analyses, PathOf, Separate, Takes;
    if files == [] {
      NoAnalyses();
      NoPathsBeyond(rows.Keys);
      NothingSeparate(rows);
    } else {
      var n := |files| - 1;
      var f := files[n];
      assert files == files[..n] + [f];
      AddedAtMostAnalysable(files[..n], rows);
      AnalysesPush(files[..n], f);
      PathsPush(Analyses(files[..n]), f.analysis);
      SeparatePush(files[..n], rows, f);
      if f.analysis.Analysed? { TakesIsPath(files[..n], f.analysis.path); }
      CountOne(rows.Keys, Paths(Analyses(files[..n])), f.analysis);
    }
  }

  lemma {:induction false} NewFilesHold(files: seq<File>, rows: Table)
    ensures forall f :: f in NewFiles(files, rows) <==> f in files && !(f.path.Some? && f.path.value in rows)
    decreases |files|
  {
    if files != [] {
      var n := |files| - 1;
      NewFilesHold(files[..n], rows);
      assert files == files[..n] + [files[n]];
    }
  }

  lemma DiscoveredBefore(files: seq<File>, n: nat)
    requires n <= |files| && Discovered(files)
    ensures Discovered(files[..n])
  {}

  /** Whose path an earlier new file has taken: only another file without a textual name can have. */
  lemma TakenOnlyWithoutName(files: seq<File>, rows: Table, f: File)
    requires Discovered(files + [f]) && f.analysis.Analysed?
    ensures Takes(NewFiles(files, rows), f.analysis.path) <==>
            f.path.None? && exists i :: 0 <= i < |files| && files[i].path.None? && files[i].analysis.Analysed?
  {
    var newly, all := NewFiles(files, rows), files + [f];
    assert f == all[|files|];
    NewFilesHold(files, rows);
    if i :| 0 <= i < |newly| && newly[i].analysis.Analysed? && newly[i].analysis.path == f.analysis.path {
      assert newly[i] in files;
      var k :| 0 <= k < |files| && files[k] == newly[i];
      assert all[k] == files[k];
    }
    if f.path.None? {
      if i :| 0 <= i < |files| && files[i].path.None? && files[i].analysis.Analysed? {
        assert all[i] == files[i] && files[i] in files;
        var k :| 0 <= k < |newly| && newly[k] == files[i];
      }
    }
  }

  lemma RecordablePush(files: seq<File>, rows: Table, f: File)
    ensures Recordable(files + [f], rows) <==>
            Recordable(files, rows) && (f.path.None? && f.analysis.Analysed? ==>
              "" !in rows && !exists i :: 0 <= i < |files| && files[i].path.None? && files[i].analysis.Analysed?)
  {
    var all := files + [f];
    assert forall j :: 0 <= j < |files| ==> all[j] == files[j];
    if Recordable(all, rows) {
      forall j | 0 <= j < |files| && files[j].path.None? && files[j].analysis.Analysed?
        ensures "" !in rows && forall i :: 0 <= i < j && files[i].path.None? ==> !files[i].analysis.Analysed?
      {
        assert all[j] == files[j];
      }
      if f.path.None? && f.analysis.Analysed? { assert all[|files|] == f; }
    }
  }

  lemma NothingRecordable(rows: Table)
    ensures Recordable([], rows)
  {}

  lemma AnalysedUnder(files: seq<File>, i: nat)
    requires Discovered(files) && i < |files| && files[i].analysis.Analysed?
    ensures files[i].analysis.path == RowPath(files[i])
  {}

  lemma {:induction false} NewFilesSeparateIff(files: seq<File>, rows: Table)
    requires Discovered(files)
    ensures Separate(NewFiles(files, rows), rows) <==> Recordable(files, rows)
    decreases |files|
  {
    hide Separate, Recordable, Takes, Discovered;
    if files == [] {
      NothingSeparate(rows);
      NothingRecordable(rows);
    } else {
      var n := |files| - 1;
      var f, newly := files[n], NewFiles(files[..n], rows);
      assert files == files[..n] + [f];
      DiscoveredBefore(files, n);
      NewFilesSeparateIff(files[..n], rows);
      RecordablePush(files[..n], rows, f);
      SeparatePush(newly, rows, f);
      if f.analysis.Analysed? {
        TakenOnlyWithoutName(files[..n], rows, f);
        AnalysedUnder(files, n);
      }
    }
  }

  lemma WhichPaths(files: seq<File>, rows: Table, p: string)
    requires Discovered(files)
    ensures p in rows || p in Paths(Analyses(NewFiles(files, rows))) <==>
            p in rows || exists f :: f in files && f.analysis.Analysed? && RowPath(f) == p
  {
    hide Paths, Analyses;
    var newly := NewFiles(files, rows);
    NewFilesHold(files, rows);
    TakesIsPath(newly, p);
    if p !in rows {
      if f :| f in files && f.analysis.Analysed? && RowPath(f) == p {
        var i :| 0 <= i < |files| && files[i] == f;
        assert f in newly;
        var k :| 0 <= k < |newly| && newly[k] == f;
      }
      if i :| 0 <= i < |newly| && newly[i].analysis.Analysed? && newly[i].analysis.path == p {
        assert newly[i] in files;
        var k :| 0 <= k < |files| && files[k] == newly[i];
      }
    }
  }

  /** An analysis stored under a file's path is that file's, if the path is textual or no other file lacks one. */
  lemma OwnRow(files: seq<File>, rows: Table, f: File, a: Arrival)
    requires Discovered(files) && f in files && f.analysis.Analysed? && (f.path.Some? || Recordable(files, rows))
    requires a.Analysed? && a.path == RowPath(f) && a in Analyses(NewFiles(files, rows))
    ensures a == f.analysis
  {
    var newly := NewFiles(files, rows);
    NewFilesHold(files, rows);
    var k :| 0 <= k < |newly| && Analyses(newly)[k] == a;
    assert newly[k] in files;
    var j :| 0 <= j < |files| && files[j] == newly[k];
    var i :| 0 <= i < |files| && files[i] == f;
  }

  /**
   For every arrival order without a fatal result: the rows added are as many as the analysable new files exactly when
   at most one of them lacks a textual name and no earlier scan stored one; the table always ends with the paths of all
   analysable files, old rows stay, and every file with a textual name has its own data in its row.
   */
  lemma ScanAddsEveryNewFileOnceIff(files: seq<File>, rows: Table, arrivals: seq<Arrival>)
    requires Discovered(files) && multiset(arrivals) == multiset(Analyses(NewFiles(files, rows)))
    ensures var r, newFiles := InsertAll(rows, arrivals), Analysable(NewFiles(files, rows));
            && r.count <= |newFiles| && (r.count == |newFiles| <==> Recordable(files, rows))
            && (forall p :: p in r.rows <==>
                p in rows || exists f :: f in files && f.analysis.Analysed? && RowPath(f) == p)
            && (forall p :: p in rows ==> r.rows[p] == rows[p])
            && (forall f :: (f in files && f.analysis.Analysed? && RowPath(f) !in rows &&
                             (f.path.Some? || Recordable(files, rows))) ==>
                  RowPath(f) in r.rows && r.rows[RowPath(f)] == f.analysis.data)
  {
    hide NewFiles, Analysable, InsertAll, Paths, Separate, Recordable, Discovered, Analyses;
    var newly, r := NewFiles(files, rows), InsertAll(rows, arrivals);
    SamePaths(arrivals, Analyses(newly));
    InsertedPaths(rows, arrivals);
    AddedAtMostAnalysable(newly, rows);
    NewFilesSeparateIff(files, rows);
    forall p | p in rows ensures r.rows[p] == rows[p] { InsertedRows(rows, arrivals, p); }
    forall p ensures p in r.rows <==> p in rows || exists f :: f in files && f.analysis.Analysed? && RowPath(f) == p {
      WhichPaths(files, rows, p);
    }
    forall f | f in files && f.analysis.Analysed? && RowPath(f) !in rows && (f.path.Some? || Recordable(files, rows))
      ensures RowPath(f) in r.rows && r.rows[RowPath(f)] == f.analysis.data
    {
      WhichPaths(files, rows, RowPath(f));
      InsertedRows(rows, arrivals, RowPath(f));
      OwnRow(files, rows, f, Analysed(RowPath(f), r.rows[RowPath(f)]));
    }
  }

  lemma PairInserts(rows: Table, a: Arrival, b: Arrival)
    ensures InsertAll(rows, [a, b]) == InsertOne(InsertOne(Inserted(rows, 0), a), b)
  {
    assert [a, b][..1] == [a] && [a][..0] == [];
    assert InsertAll(rows, [a]) == InsertOne(InsertAll(rows, []), a);
  }

  /**
   Two files whose names are not valid text: one row is added, not two, and it is the one whose analysis arrived first.
   */
  lemma UnnamedFilesCollide(rows: Table, x: int, y: int)
    requires "" !in rows
    ensures var a, b := Analysed("", x), Analysed("", y);
            var files := [File(None, a), File(None, b)];
            && Discovered(files) && Analyses(NewFiles(files, rows)) == [a, b]
            && InsertAll(rows, [a, b]) == Inserted(rows["" := x], 1)
            && InsertAll(rows, [b, a]) == Inserted(rows["" := y], 1)
  {
    var a, b := Analysed("", x), Analysed("", y);
    var files := [File(None, a), File(None, b)];
    assert files[..1] == [files[0]] && [files[0]][..0] == [];
    assert NewFiles([files[0]], rows) == [files[0]] && NewFiles(files, rows) == files;
    PairInserts(rows, a, b);
    PairInserts(rows, b, a);
  }

  // ---------- The connection ----------

  lemma InsertOneIs(s: Inserted, a: Arrival)
    ensures InsertOne(s, a) ==
              if a.Analysed? && a.path !in s.rows then Inserted(s.rows[a.path := a.data], s.count + 1) else s
  {
  }

  /** The committed rows, and those of the transaction in progress. */
  class Database {
    var committed: Table
    var working: Table
    var inTransaction: bool

    predicate Idle()
      reads this
    {
      !inTransaction && working == committed
    }

    /** `BEGIN IMMEDIATE`, refused inside a transaction or by the engine. */
    method Begin(granted: bool) returns (ok: bool)
      modifies this`working, this`inTransaction
      ensures ok == (granted && !old(inTransaction))
      ensures if ok then inTransaction && working == committed
              else inTransaction == old(inTransaction) && working == old(working)
    {
      ok := granted && !inTransaction;
      if ok { inTransaction, working := true, committed; }
    }

    method RollBack()
      modifies this`working, this`inTransaction
      ensures Idle()
    {
      working, inTransaction := committed, false;
    }

    method Commit(granted: bool)
      modifies this`committed, this`inTransaction
      ensures if granted then !inTransaction && committed == working
              else inTransaction == old(inTransaction) && committed == old(committed)
    {
      if granted { committed, inTransaction := working, false; }
    }

    method Insert(path: string, data: int) returns (ok: bool)
      requires inTransaction
      modifies this`working
      ensures ok == (path !in old(working))
      ensures working == if ok then old(working)[path := data] else old(working)
    {
      ok := path !in working;
      if ok { working := working[path := data]; }
    }

    /**
     The receive loop and its transaction. A commit that fails is reported with the transaction still open; otherwise
     the scan leaves the connection idle, and the committed rows either complete or untouched.
     */
    method Scan(files: seq<File>, arrivals: seq<Arrival>, begins: bool, commits: bool) returns (result: Result)
      requires Idle() && multiset(arrivals) == multiset(Analyses(NewFiles(files, committed)))
      modifies this
      ensures result == if NewFiles(files, old(committed)) == [] then Indexed(0)
                        else if !begins || HasFatal(arrivals) || !commits then Failed
                        else Indexed(InsertAll(old(committed), arrivals).count)
      ensures committed == if result.Indexed? then InsertAll(old(committed), arrivals).rows else old(committed)
      ensures Idle() <==> !(NewFiles(files, old(committed)) != [] && begins && !HasFatal(arrivals) && !commits)
    {
      hide InsertOne;
      var total := |NewFiles(files, committed)|;
      assert |arrivals| == |multiset(arrivals)| == total;
      if total == 0 { return Indexed(0); }
      var ok := Begin(begins);
      if !ok { return Failed; }
      var count: nat := 0;
      for idx := 0 to total
        invariant committed == old(committed) && inTransaction
        invariant InsertAll(committed, arrivals[..idx]) == Inserted(working, count)
        invariant !HasFatal(arrivals[..idx])
      {
        assert arrivals[..idx + 1][..idx] == arrivals[..idx] && arrivals[..idx + 1][idx] == arrivals[idx];
        assert arrivals[..idx + 1] == arrivals[..idx] + [arrivals[idx]];
        InsertOneIs(Inserted(working, count), arrivals[idx]);
        match arrivals[idx]
        case Analysed(path, data) =>
          var inserted := Insert(path, data);
          if inserted { count := count + 1; }
        case Undecodable =>
        case Fatal(_) =>
          assert arrivals[idx] in arrivals;
          RollBack();
          return Failed;
      }
      assert arrivals[..total] == arrivals;
      Commit(commits);
      if !commits { return Failed; }
      result := Indexed(count);
    }
  }
}
