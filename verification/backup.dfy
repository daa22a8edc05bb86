// backup.List, Filter, Apps, Services and Prune over one backups directory.
module Backup {
  import opened Text
  import opened Names
  import opened Registry
  import opened Sorting
  import opened BackupNames
  import opened Retention

  // <app>/<name> below the backups directory.
  datatype Path = Path(app: string, name: string)

  datatype Meta = Meta(content: string, modified: int)

  type Files = map<Path, Meta>

  // List skips directories that are not app names and files it does not
  // recognise.
  predicate Recognised(p: Path)
  {
    ValidName(p.app) && DetectService(p.name) != ""
  }

  function FileOf(p: Path, m: Meta): File
  {
    File(p.app, DetectService(p.name), p.name, m.modified)
  }

  function PathOf(f: File): Path { Path(f.app, f.name) }

  function Listed(files: Files): set<File>
  {
    set p | p in files && Recognised(p) :: FileOf(p, files[p])
  }

  ghost predicate NewestFirst(s: seq<File>)
  {
    forall i, j :: 0 <= i < j < |s| ==> s[i].modified >= s[j].modified
  }

  // The elements of a sequence without repetitions.
  ghost predicate Arranges(s: seq<File>, files: set<File>)
  {
    Distinct(s) && forall f :: f in s <==> f in files
  }

  // sort.Slice by Modified.After: newest first, ties in any order.
  method SortNewestFirst(s: seq<File>, ghost files: set<File>) returns (r: seq<File>)
    requires Arranges(s, files)
    ensures NewestFirst(r) && Arranges(r, files)
  {
    r := [];
    for i := 0 to |s|
      invariant NewestFirst(r) && Distinct(r)
      invariant forall f :: f in r <==> f in s[..i]
    {
      assert s[i] !in s[..i];
      r := Insert(r, s[i]);
      assert s[..i + 1] == s[..i] + [s[i]];
    }
    assert s[..|s|] == s;
  }

  method Insert(r: seq<File>, f: File) returns (t: seq<File>)
    requires NewestFirst(r) && Distinct(r) && f !in r
    ensures NewestFirst(t) && Distinct(t) && forall g :: g in t <==> g == f || g in r
  {
    var k := 0;
    while k < |r| && r[k].modified >= f.modified
      invariant 0 <= k <= |r| && forall i :: 0 <= i < k ==> r[i].modified >= f.modified
    {
      k := k + 1;
    }
    t := r[..k] + [f] + r[k..];
  }

  // ------------------------------------------------------------ pure readers

  // An empty app or service is no constraint.
  predicate Passes(f: File, app: string, service: string)
  {
    (app == "" || f.app == app) && (service == "" || f.service == service)
  }

  function Filtered(files: seq<File>, app: string, service: string): seq<File>
  {
    if files == [] then []
    else (if Passes(files[0], app, service) then [files[0]] else []) + Filtered(files[1..], app, service)
  }

  // One step of the loop in Filter.
  lemma FilterStep(r: seq<File>, files: seq<File>, i: nat, app: string, service: string)
    requires i < |files|
    ensures (if Passes(files[i], app, service) then r + [files[i]] else r) + Filtered(files[i + 1..], app, service)
      == r + Filtered(files[i..], app, service)
  {
    assert files[i..][1..] == files[i + 1..];
  }

  // Filter keeps the order of the files.
  method Filter(files: seq<File>, app: string, service: string) returns (r: seq<File>)
    ensures r == Filtered(files, app, service)
  {
    r := [];
    var i := 0;
    while i < |files|
      invariant 0 <= i <= |files|
      invariant r + Filtered(files[i..], app, service) == Filtered(files, app, service)
    {
      FilterStep(r, files, i, app, service);
      if !(app != "" && files[i].app != app) {
        if !(service != "" && files[i].service != service) {
          r := r + [files[i]];
        }
      }
      i := i + 1;
    }
  }

  // Filtering by app and then by service, or the other way round, is filtering
  // by both.
  lemma {:induction false} FilterComposes(files: seq<File>, app: string, service: string)
    ensures Filtered(Filtered(files, app, ""), "", service) == Filtered(files, app, service)
    ensures Filtered(Filtered(files, "", service), app, "") == Filtered(files, app, service)
  {
    if files != [] {
      FilterComposes(files[1..], app, service);
      FilteredHead(files[0], Filtered(files[1..], app, ""), "", service);
      FilteredHead(files[0], Filtered(files[1..], "", service), app, "");
    }
  }

  lemma FilteredHead(f: File, rest: seq<File>, app: string, service: string)
    ensures Filtered([f] + rest, app, service)
      == (if Passes(f, app, service) then [f] else []) + Filtered(rest, app, service)
    ensures [] + rest == rest
  {
    assert ([f] + rest)[1..] == rest;
  }

  // Apps and Services: the distinct values, sorted.
  method Apps(files: seq<File>) returns (apps: seq<string>)
    ensures SortedStrings(apps) && Distinct(apps)
    ensures forall a :: a in apps <==> exists i :: 0 <= i < |files| && files[i].app == a
  {
    var seen: set<string> := {};
    var found: seq<string> := [];
    for i := 0 to |files|
      invariant Distinct(found) && forall a :: a in seen <==> a in found
      invariant forall a :: a in found <==> exists k :: 0 <= k < i && files[k].app == a
    {
      if files[i].app !in seen {
        seen := seen + {files[i].app};
        found := found + [files[i].app];
      }
    }
    apps := LibrarySort(found);
    SameMembers(found, apps);
  }

  method Services(files: seq<File>) returns (services: seq<string>)
    ensures SortedStrings(services) && Distinct(services)
    ensures forall s :: s in services <==> exists i :: 0 <= i < |files| && files[i].service == s
  {
    var seen: set<string> := {};
    var found: seq<string> := [];
    for i := 0 to |files|
      invariant Distinct(found) && forall s :: s in seen <==> s in found
      invariant forall s :: s in found <==> exists k :: 0 <= k < i && files[k].service == s
    {
      if files[i].service !in seen {
        seen := seen + {files[i].service};
        found := found + [files[i].service];
      }
    }
    services := LibrarySort(found);
    SameMembers(found, services);
  }

  // -------------------------------------------------------------------- Prune

  datatype PruneOptions = PruneOptions(
    appName: string, all: bool, services: seq<string>, keepDays: int, keepCount: int)

  predicate Active(o: PruneOptions) { o.keepDays > 0 || o.keepCount > 0 }

  function RuleOf(o: PruneOptions, cutoff: int): Rule { Rule(o.keepDays, o.keepCount, cutoff) }

  predicate Selected(o: PruneOptions, f: File)
  {
    (o.all || o.appName == "" || f.app == o.appName) && (o.services == [] || f.service in o.services)
  }

  function GroupKey(f: File): string { f.app + "/" + f.service }

  // The selected files of one app and service.
  function Group(files: Files, o: PruneOptions, app: string, service: string): set<File>
  {
    set f | f in Listed(files) && Selected(o, f) && f.app == app && f.service == service
  }

  function GroupByKey(files: Files, o: PruneOptions, key: string): set<File>
  {
    set f | f in Listed(files) && Selected(o, f) && GroupKey(f) == key
  }

  // The group map's string keys keep apps and services apart.
  lemma GroupKeyIsInjective(files: Files, o: PruneOptions, app: string, service: string)
    requires ValidName(app)
    ensures GroupByKey(files, o, app + "/" + service) == Group(files, o, app, service)
  {
    forall f | f in Listed(files) && GroupKey(f) == app + "/" + service
      ensures f.app == app && f.service == service
    {
      ValidNamesAreClean(app);
      ValidNamesAreClean(f.app);
      SlashSplits(f.app, f.service, app, service);
    }
  }

  lemma SlashSplits(a: string, x: string, b: string, y: string)
    requires '/' !in a && '/' !in b && a + "/" + x == b + "/" + y
    ensures a == b && x == y
  {
    FirstSlash(a, x);
    FirstSlash(b, y);
    var s := a + "/" + x;
    assert |a| == |b|;
    assert a == s[..|a|] == b;
    assert x == s[|a| + 1..] == y;
  }

  lemma FirstSlash(a: string, x: string)
    requires '/' !in a
    ensures var s := a + "/" + x; |a| < |s| && s[|a|] == '/' && forall i :: 0 <= i < |a| ==> s[i] != '/'
  {
    forall i | 0 <= i < |a|
      ensures (a + "/" + x)[i] != '/'
    {
      assert a[i] in a;
    }
  }

  // ------------------------------------------------ the cut of a sorted group

  function FreshCount(rule: Rule, g: seq<File>): nat
  {
    if g == [] || TooOld(rule, g[0]) then 0 else 1 + FreshCount(rule, g[1..])
  }

  // How many files of a group sorted newest first stay.
  function CutAt(rule: Rule, g: seq<File>): nat { Quota(rule, FreshCount(rule, g)) }

  function Elements(g: seq<File>): set<File> { set f | f in g }

  lemma {:induction false} FreshComeFirst(rule: Rule, g: seq<File>)
    requires NewestFirst(g)
    ensures FreshCount(rule, g) <= |g|
    ensures forall i :: 0 <= i < |g| ==> (TooOld(rule, g[i]) <==> i >= FreshCount(rule, g))
  {
    if g != [] && !TooOld(rule, g[0]) {
      FreshComeFirst(rule, g[1..]);
      assert forall i :: 1 <= i < |g| ==> g[i] == g[1..][i - 1];
    }
  }

  lemma {:induction false} DistinctSize(g: seq<File>)
    requires Distinct(g)
    ensures |Elements(g)| == |g|
  {
    if g != [] {
      DistinctSize(g[1..]);
      assert Elements(g) == {g[0]} + Elements(g[1..]);
      assert g[0] !in g[1..];
    }
  }

  // The loop condition of Prune cuts a suffix, and what is left obeys the
  // retention rule.
  lemma CutIsPruned(rule: Rule, g: seq<File>, all: set<File>)
    requires NewestFirst(g) && Arranges(g, all)
    ensures CutAt(rule, g) <= |g|
    ensures forall i :: 0 <= i < |g| ==>
      (TooOld(rule, g[i]) || (rule.keepCount > 0 && i >= rule.keepCount) <==> i >= CutAt(rule, g))
    ensures Pruned(rule, all, Elements(g[..CutAt(rule, g)]))
  {
    FreshComeFirst(rule, g);
    var n, c := FreshCount(rule, g), CutAt(rule, g);
    DistinctSize(g[..n]);
    DistinctSize(g[..c]);
    assert Elements(g[..n]) == Fresh(rule, all) by {
      forall f
        ensures f in Elements(g[..n]) <==> f in Fresh(rule, all)
      {
        if f in Fresh(rule, all) {
          var i :| 0 <= i < |g| && g[i] == f;
          assert i < n;
          assert g[..n][i] == f;
        }
      }
    }
    forall k, d | k in Elements(g[..c]) && d in all - Elements(g[..c])
      ensures k.modified >= d.modified
    {
      var i :| 0 <= i < c && g[..c][i] == k;
      assert d in g;
      var j :| 0 <= j < |g| && g[j] == d;
      assert g[i].modified >= g[j].modified;
    }
    forall f | f in Elements(g[..c])
      ensures f in Fresh(rule, all)
    {
      var i :| 0 <= i < c && g[..c][i] == f;
      assert g[i] == f && f in g;
    }
  }

  // A deleted file was not safe: too old, or behind KeepCount others.
  lemma CutIsUnsafe(rule: Rule, g: seq<File>, all: set<File>, i: nat)
    requires NewestFirst(g) && Arranges(g, all) && CutAt(rule, g) <= i < |g|
    ensures !Safe(rule, all, g[i])
  {
    CutIsPruned(rule, g, all);
    if !TooOld(rule, g[i]) {
      var front := g[..rule.keepCount];
      DistinctSize(front);
      forall f | f in front
        ensures f in Rivals(all, g[i])
      {
        var k :| 0 <= k < |front| && front[k] == f;
        assert g[k] == f && f in g;
      }
      assert Elements(front) <= Rivals(all, g[i]);
      SubsetSize(Elements(front), Rivals(all, g[i]));
    }
  }

  // ------------------------------------------------------------ the directory

  function Paths(fs: set<File>): set<Path>
  {
    set f | f in fs :: PathOf(f)
  }

  lemma ListedAfterRemoval(files: Files, gone: set<File>)
    requires gone <= Listed(files)
    ensures Listed(files - Paths(gone)) == Listed(files) - gone
  {
    forall f
      ensures f in Listed(files - Paths(gone)) <==> f in Listed(files) - gone
    {
      if f in Listed(files) && PathOf(f) in Paths(gone) {
        var g :| g in gone && PathOf(g) == PathOf(f);
      }
    }
  }

  // What Prune promises of one call, whether it ran to the end or not: it
  // deletes only selected files it recognises and that the rule gives up, and
  // removes nothing else; and if no removal was refused every group is pruned.
  ghost predicate PruneDone(
      before: Files, after: Files, o: PruneOptions, cutoff: int, deleted: set<File>, ok: bool)
  {
    && deleted <= Listed(before)
    && after == before - Paths(deleted)
    && (forall f :: f in deleted ==>
          Selected(o, f) && !Safe(RuleOf(o, cutoff), Group(before, o, f.app, f.service), f))
    && (ok ==> forall app, service :: ValidName(app) ==>
          Pruned(RuleOf(o, cutoff), Group(before, o, app, service), Group(after, o, app, service)))
  }

  // A file the rule gives up and that cannot be removed.
  predicate Blocked(rule: Rule, all: set<File>, denied: set<Path>, f: File)
  {
    PathOf(f) in denied && !Safe(rule, all, f)
  }

  // Prune stops at such a file only.
  ghost predicate PruneStopped(before: Files, o: PruneOptions, cutoff: int, denied: set<Path>)
  {
    exists f :: f in Listed(before) && Selected(o, f)
      && Blocked(RuleOf(o, cutoff), Group(before, o, f.app, f.service), denied, f)
  }

  lemma StoppedInGroup(before: Files, o: PruneOptions, cutoff: int, denied: set<Path>, key: string)
    requires exists f ::
      f in GroupByKey(before, o, key) && Blocked(RuleOf(o, cutoff), GroupByKey(before, o, key), denied, f)
    ensures PruneStopped(before, o, cutoff, denied)
  {
    var f :| f in GroupByKey(before, o, key) && Blocked(RuleOf(o, cutoff), GroupByKey(before, o, key), denied, f);
    assert f in Listed(before) && ValidName(f.app);
    GroupKeyIsInjective(before, o, f.app, f.service);
    assert GroupByKey(before, o, key) == Group(before, o, f.app, f.service);
  }

  // The part of PruneDone that holds after every group, by group key.
  ghost predicate OnlyUnsafe(
      before: Files, after: Files, o: PruneOptions, rule: Rule, deleted: seq<File>, touched: set<string>)
  {
    && Elements(deleted) <= Listed(before)
    && after == before - Paths(Elements(deleted))
    && forall f :: f in deleted ==>
      GroupKey(f) in touched && Selected(o, f) && !Safe(rule, GroupByKey(before, o, GroupKey(f)), f)
  }

  ghost predicate GroupPruned(before: Files, o: PruneOptions, rule: Rule, gone: set<File>, key: string)
  {
    Pruned(rule, GroupByKey(before, o, key), GroupByKey(before, o, key) - gone)
  }

  ghost predicate GroupsPruned(before: Files, o: PruneOptions, rule: Rule, deleted: seq<File>, done: set<string>)
  {
    forall key {:trigger GroupPruned(before, o, rule, Elements(deleted), key)} ::
      key in done ==> GroupPruned(before, o, rule, Elements(deleted), key)
  }

  lemma ForeignLossIsIrrelevant(
      before: Files, o: PruneOptions, rule: Rule, hits: set<File>, misses: set<File>, all: set<File>, key: string)
    requires all == hits + misses || all == misses + hits
    requires forall f :: f in misses ==> GroupKey(f) != key
    ensures GroupPruned(before, o, rule, hits, key) <==> GroupPruned(before, o, rule, all, key)
  {
    assert GroupByKey(before, o, key) - all == GroupByKey(before, o, key) - hits;
  }

  lemma OnlyUnsafeGrows(
      before: Files, mid: Files, o: PruneOptions, rule: Rule, deleted: seq<File>, touched: set<string>,
      key: string, ds: seq<File>)
    requires OnlyUnsafe(before, mid, o, rule, deleted, touched)
    requires Elements(ds) <= GroupByKey(before, o, key)
    requires forall f :: f in ds ==> !Safe(rule, GroupByKey(before, o, key), f)
    ensures OnlyUnsafe(before, mid - Paths(Elements(ds)), o, rule, deleted + ds, touched + {key})
  {
    assert Elements(deleted + ds) == Elements(deleted) + Elements(ds);
    assert Paths(Elements(deleted) + Elements(ds)) == Paths(Elements(deleted)) + Paths(Elements(ds));
    forall f | f in deleted + ds
      ensures GroupKey(f) in touched + {key} && Selected(o, f) && !Safe(rule, GroupByKey(before, o, GroupKey(f)), f)
    {
      if f !in deleted {
        assert f in Elements(ds);
      }
    }
  }

  lemma GroupsPrunedGrows(
      before: Files, o: PruneOptions, rule: Rule, deleted: seq<File>, done: set<string>, key: string, ds: seq<File>)
    requires forall f :: f in Elements(deleted) ==> GroupKey(f) != key
    requires forall f :: f in Elements(ds) ==> GroupKey(f) == key
    requires key !in done && GroupsPruned(before, o, rule, deleted, done)
    requires GroupPruned(before, o, rule, Elements(ds), key)
    ensures GroupsPruned(before, o, rule, deleted + ds, done + {key})
  {
    var hits, misses, all := Elements(deleted), Elements(ds), Elements(deleted + ds);
    forall k | k in done
      ensures GroupPruned(before, o, rule, all, k)
    {
      assert GroupPruned(before, o, rule, hits, k);
      ForeignLossIsIrrelevant(before, o, rule, hits, misses, all, k);
    }
    ForeignLossIsIrrelevant(before, o, rule, misses, hits, all, key);
  }

  // From group keys back to apps and services.
  lemma KeysToGroups(
      before: Files, after: Files, o: PruneOptions, cutoff: int, deleted: seq<File>, touched: set<string>, ok: bool)
    requires OnlyUnsafe(before, after, o, RuleOf(o, cutoff), deleted, touched)
    requires ok ==> GroupsPruned(before, o, RuleOf(o, cutoff), deleted, touched)
    requires ok ==> forall f :: f in Listed(before) && Selected(o, f) ==> GroupKey(f) in touched
    ensures PruneDone(before, after, o, cutoff, Elements(deleted), ok)
  {
    var rule := RuleOf(o, cutoff);
    ListedAfterRemoval(before, Elements(deleted));
    forall f | f in Elements(deleted)
      ensures Selected(o, f) && !Safe(rule, Group(before, o, f.app, f.service), f)
    {
      GroupKeyIsInjective(before, o, f.app, f.service);
    }
    forall app, service | ok && ValidName(app)
      ensures Pruned(rule, Group(before, o, app, service), Group(after, o, app, service))
    {
      var key := app + "/" + service;
      GroupKeyIsInjective(before, o, app, service);
      var g := Group(before, o, app, service);
      assert Group(after, o, app, service) == g - Elements(deleted);
      assert key in touched ==> GroupPruned(before, o, rule, Elements(deleted), key);
      if key !in touched {
        assert g == {} && Fresh(rule, g) == {};
      }
    }
  }

  // Nothing outside the selection and nothing with an unrecognised name goes.
  lemma PruneTouchesOnlySelected(
      before: Files, after: Files, o: PruneOptions, cutoff: int, deleted: set<File>, ok: bool, p: Path)
    requires PruneDone(before, after, o, cutoff, deleted, ok) && p in before
    requires !Recognised(p) || !Selected(o, FileOf(p, before[p]))
    ensures p in after && after[p] == before[p]
  {
  }

  // A second Prune at the same instant deletes nothing.
  lemma SecondPruneDeletesNothing(
      before: Files, mid: Files, after: Files, o: PruneOptions, cutoff: int, d1: set<File>, d2: set<File>)
    requires PruneDone(before, mid, o, cutoff, d1, true) && PruneDone(mid, after, o, cutoff, d2, true)
    ensures d2 == {} && after == mid
  {
    forall f | f in d2
      ensures f in Listed(after)
    {
      PruneIsIdempotent(RuleOf(o, cutoff), Group(before, o, f.app, f.service),
        Group(mid, o, f.app, f.service), Group(after, o, f.app, f.service));
      assert f in Group(mid, o, f.app, f.service);
    }
    assert d2 <= Listed(after);
    ListedAfterRemoval(mid, d2);
    assert Paths({}) == {};
  }

  class Disk {
    var files: Files

    // os.ReadDir, which fails when the backups directory is unreadable, the name
    // filters, and the sort.
    method List(unreadable: bool) returns (fs: seq<File>, ok: bool)
      ensures ok == !unreadable
      ensures ok ==> NewestFirst(fs) && Arranges(fs, Listed(files))
    {
      fs, ok := [], !unreadable;
      if !ok {
        return;
      }
      var left := files.Keys;
      while left != {}
        invariant left <= files.Keys && Distinct(fs)
        invariant forall f :: f in fs <==> f in Listed(files) && PathOf(f) !in left
        decreases |left|
      {
        var p :| p in left;
        left := left - {p};
        ListedPaths(files);
        if Recognised(p) {
          fs := fs + [FileOf(p, files[p])];
        }
      }
      ListedPaths(files);
      fs := SortNewestFirst(fs, Listed(files));
    }

    static lemma ListedPaths(files: Files)
      ensures forall f :: f in Listed(files) ==>
        PathOf(f) in files && Recognised(PathOf(f)) && f == FileOf(PathOf(f), files[PathOf(f)])
      ensures forall p :: p in files && Recognised(p) ==>
        FileOf(p, files[p]) in Listed(files) && PathOf(FileOf(p, files[p])) == p
    {
    }

    // The map from "<app>/<service>" to the selected files.
    static method GroupFiles(fs: seq<File>, o: PruneOptions, ghost listed: set<File>)
      returns (groups: map<string, seq<File>>)
      requires Arranges(fs, listed)
      ensures forall key :: key in groups ==>
        Arranges(groups[key], set f | f in listed && Selected(o, f) && GroupKey(f) == key)
      ensures forall f :: f in listed && Selected(o, f) ==> GroupKey(f) in groups
    {
      groups := map[];
      for i := 0 to |fs|
        invariant forall key :: key in groups ==> Distinct(groups[key])
        invariant forall key, f :: key in groups ==>
          (f in groups[key] <==> f in fs[..i] && Selected(o, f) && GroupKey(f) == key)
        invariant forall f :: f in fs[..i] && Selected(o, f) ==> GroupKey(f) in groups
      {
        var file := fs[i];
        assert fs[..i + 1] == fs[..i] + [file];
        assert file !in fs[..i];
        if !o.all && o.appName != "" && file.app != o.appName {
          continue;
        }
        if |o.services| > 0 && file.service !in o.services {
          continue;
        }
        var key := GroupKey(file);
        groups := groups[key := (if key in groups then groups[key] else []) + [file]];
      }
      assert fs[..|fs|] == fs;
    }

    // One group: sort, then delete what the rule gives up. `denied` are the
    // paths whose removal fails for another reason than a missing file.
    method PruneGroup(group: seq<File>, ghost all: set<File>, rule: Rule, denied: set<Path>)
      returns (deleted: seq<File>, ok: bool)
      requires Arranges(group, all)
      modifies this
      ensures files == old(files) - Paths(Elements(deleted))
      ensures Elements(deleted) <= all && forall f :: f in deleted ==> !Safe(rule, all, f)
      ensures ok ==> Pruned(rule, all, all - Elements(deleted))
      ensures !ok ==> exists f :: f in all && Blocked(rule, all, denied, f)
    {
      var g := SortNewestFirst(group, all);
      CutIsPruned(rule, g, all);
      ghost var c := CutAt(rule, g);
      deleted := [];
      for index := 0 to |g|
        invariant files == old(files) - Paths(Elements(deleted))
        invariant deleted == Suffix(g, c, index)
      {
        var file := g[index];
        var byAge := rule.keepDays > 0 && file.modified < rule.cutoff;
        var byCount := rule.keepCount > 0 && index >= rule.keepCount;
        SuffixGrows(g, c, index);
        if byAge || byCount {
          if PathOf(file) in denied {
            StoppedAt(rule, g, all, index, denied);
            return deleted, false;
          }
          RemoveOne(old(files), deleted, file);
          files := files - {PathOf(file)};
          deleted := deleted + [file];
        }
      }
      SuffixIsUnsafe(rule, g, all, |g|);
      SuffixLeavesPrefix(g, all, c);
      return deleted, true;
    }

    static lemma RemoveOne(files: Files, deleted: seq<File>, f: File)
      ensures files - Paths(Elements(deleted)) - {PathOf(f)} == files - Paths(Elements(deleted + [f]))
    {
      assert Elements(deleted + [f]) == Elements(deleted) + {f};
      assert Paths(Elements(deleted) + {f}) == Paths(Elements(deleted)) + {PathOf(f)};
    }

    static function Suffix(g: seq<File>, c: nat, n: nat): seq<File>
      requires n <= |g|
    {
      if n <= c then [] else g[c..n]
    }

    static lemma SuffixGrows(g: seq<File>, c: nat, n: nat)
      requires c <= |g| && n < |g|
      ensures Suffix(g, c, n + 1) == if n >= c then Suffix(g, c, n) + [g[n]] else Suffix(g, c, n)
    {
    }

    static lemma StoppedAt(rule: Rule, g: seq<File>, all: set<File>, n: nat, denied: set<Path>)
      requires NewestFirst(g) && Arranges(g, all) && CutAt(rule, g) <= n < |g| && PathOf(g[n]) in denied
      ensures var d := Suffix(g, CutAt(rule, g), n);
        Elements(d) <= all && forall f :: f in d ==> !Safe(rule, all, f)
      ensures exists f :: f in all && Blocked(rule, all, denied, f)
    {
      SuffixIsUnsafe(rule, g, all, n);
      CutIsUnsafe(rule, g, all, n);
      assert g[n] in g && Blocked(rule, all, denied, g[n]);
    }

    static lemma SuffixIsUnsafe(rule: Rule, g: seq<File>, all: set<File>, n: nat)
      requires NewestFirst(g) && Arranges(g, all) && n <= |g|
      ensures var d := Suffix(g, CutAt(rule, g), n);
        Elements(d) <= all && forall f :: f in d ==> !Safe(rule, all, f)
    {
      var c := CutAt(rule, g);
      var d := Suffix(g, c, n);
      forall f | f in d
        ensures f in all && !Safe(rule, all, f)
      {
        var i :| 0 <= i < |d| && d[i] == f;
        assert g[c + i] == f && f in g;
        CutIsUnsafe(rule, g, all, c + i);
      }
    }

    static lemma SuffixLeavesPrefix(g: seq<File>, all: set<File>, c: nat)
      requires Arranges(g, all) && c <= |g|
      ensures all - Elements(Suffix(g, c, |g|)) == Elements(g[..c])
    {
      var d := g[c..];
      assert Suffix(g, c, |g|) == d && g == g[..c] + d;
      forall f
        ensures f in all - Elements(d) <==> f in Elements(g[..c])
      {
        assert f in all <==> f in g[..c] || f in d;
      }
    }

    // backup.Prune. The groups come in any order, as Go's map iteration gives
    // them.
    method Prune(o: PruneOptions, cutoff: int, unreadable: bool, denied: set<Path>)
      returns (deleted: seq<File>, ok: bool)
      modifies this
      ensures !Active(o) ==> deleted == [] && ok && files == old(files)
      ensures Active(o) && unreadable ==> deleted == [] && !ok && files == old(files)
      ensures Active(o) ==> PruneDone(old(files), files, o, cutoff, Elements(deleted), ok)
      ensures !ok && !unreadable ==> PruneStopped(old(files), o, cutoff, denied)
    {
      if o.keepDays <= 0 && o.keepCount <= 0 {
        return [], true;
      }
      ghost var before := files;
      var fs, read := List(unreadable);
      if !read {
        assert Paths({}) == {};
        return [], false;
      }
      var groups := GroupFiles(fs, o, Listed(before));
      ghost var touched;
      deleted, ok, touched := PruneGroups(groups, o, cutoff, denied);
      KeysToGroups(before, files, o, cutoff, deleted, touched, ok);
    }

    // The group loop of Prune, up to the first removal that fails.
    method PruneGroups(groups: map<string, seq<File>>, o: PruneOptions, cutoff: int, denied: set<Path>)
      returns (deleted: seq<File>, ok: bool, ghost touched: set<string>)
      requires forall key :: key in groups ==> Arranges(groups[key], GroupByKey(files, o, key))
      modifies this
      ensures OnlyUnsafe(old(files), files, o, RuleOf(o, cutoff), deleted, touched)
      ensures ok ==> touched == groups.Keys && GroupsPruned(old(files), o, RuleOf(o, cutoff), deleted, touched)
      ensures !ok ==> PruneStopped(old(files), o, cutoff, denied)
    {
      ghost var before, rule := files, RuleOf(o, cutoff);
      deleted, ok, touched := [], true, {};
      var left := groups.Keys;
      while left != {}
        invariant left <= groups.Keys && touched == groups.Keys - left
        invariant OnlyUnsafe(before, files, o, rule, deleted, touched)
        invariant GroupsPruned(before, o, rule, deleted, touched)
        invariant ok
        decreases |left|
      {
        var key :| key in left;
        ghost var mid := files;
        var ds;
        ds, ok := PruneGroup(groups[key], GroupByKey(before, o, key), RuleOf(o, cutoff), denied);
        OnlyUnsafeGrows(before, mid, o, rule, deleted, touched, key, ds);
        if ok {
          GroupsPrunedGrows(before, o, rule, deleted, touched, key, ds);
        }
        deleted := deleted + ds;
        touched := touched + {key};
        if !ok {
          StoppedInGroup(before, o, cutoff, denied, key);
          return;
        }
        left := left - {key};
      }
    }
  }
}
