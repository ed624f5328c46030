/**
 Restartable schema migrations: every .up.sql file of a directory is applied once, in name order, each in a
 transaction that also records its version. The database is represented by the log of the scripts it executed, so
 two databases with the same log are the same whatever the scripts do.
 */
module Migrations {

  // ---------------------------------------------------------------- name order

  /** Go's `<` on strings. */
  predicate Less(a: string, b: string) {
    b != "" && (a == "" || a[0] < b[0] || (a[0] == b[0] && Less(a[1..], b[1..])))
  }

  /** At the first place where the two differ, the smaller has the smaller character or has ended. */
  ghost predicate SmallerAt(a: string, b: string, i: nat) {
    && i <= |a| && i < |b| && a[..i] == b[..i]
    && (i == |a| || a[i] < b[i])
  }

  lemma {:induction false} LessMeaning(a: string, b: string)
    ensures Less(a, b) <==> exists i: nat :: SmallerAt(a, b, i)
    decreases |a|
  {
    if a == "" {
      assert b != "" ==> SmallerAt(a, b, 0);
    } else if b != "" && a[0] == b[0] {
      LessMeaning(a[1..], b[1..]);
      if i: nat :| SmallerAt(a[1..], b[1..], i) {
        assert a[..i + 1] == [a[0]] + a[1..][..i] && b[..i + 1] == [b[0]] + b[1..][..i];
        assert SmallerAt(a, b, i + 1);
      }
      if i: nat :| SmallerAt(a, b, i) {
        assert i > 0;
        assert a[1..][..i - 1] == a[..i][1..] && b[1..][..i - 1] == b[..i][1..];
        assert SmallerAt(a[1..], b[1..], i - 1);
      }
    } else if b != "" {
      if Less(a, b) {
        assert SmallerAt(a, b, 0);
      }
      if i: nat :| SmallerAt(a, b, i) {
        assert i > 0 ==> a[..i][0] == b[..i][0];
      }
    }
  }

  lemma {:induction false} LessTotal(a: string, b: string)
    ensures a == b || Less(a, b) || Less(b, a)
    decreases |a|
  {
    if a != "" && b != "" && a[0] == b[0] {
      LessTotal(a[1..], b[1..]);
      assert a == [a[0]] + a[1..] && b == [b[0]] + b[1..];
    }
  }

  lemma {:induction false} LessTransitive(a: string, b: string, c: string)
    requires Less(a, b) && Less(b, c)
    ensures Less(a, c)
    decreases |a|
  {
    if a != "" && a[0] == b[0] && b[0] == c[0] {
      LessTransitive(a[1..], b[1..], c[1..]);
    }
  }

  lemma {:induction false} LessIrreflexive(a: string)
    ensures !Less(a, a)
    decreases |a|
  {
    if a != "" {
      LessIrreflexive(a[1..]);
    }
  }

  // ---------------------------------------------------------------- sorting the directory

  datatype Entry = Entry(name: string, isDir: bool)

  /** A directory has one entry per name. */
  ghost predicate Directory(dir: seq<Entry>) {
    forall i, j :: 0 <= i < j < |dir| ==> dir[i].name != dir[j].name
  }

  ghost predicate Ascending(s: seq<Entry>) {
    forall i, j :: 0 <= i < j < |s| ==> Less(s[i].name, s[j].name)
  }

  function Insert(e: Entry, s: seq<Entry>): seq<Entry> {
    if s == [] || Less(e.name, s[0].name) then [e] + s else [s[0]] + Insert(e, s[1..])
  }

  function Sort(dir: seq<Entry>): seq<Entry> {
    if dir == [] then [] else Insert(dir[|dir| - 1], Sort(dir[..|dir| - 1]))
  }

  lemma {:induction false} SortMembers(dir: seq<Entry>, x: Entry)
    ensures x in Sort(dir) <==> x in dir
    decreases |dir|
  {
    if dir != [] {
      var n := |dir| - 1;
      SortMembers(dir[..n], x);
      InsertMembers(dir[n], Sort(dir[..n]), x);
      assert dir == dir[..n] + [dir[n]];
    }
  }

  lemma {:induction false} InsertMembers(e: Entry, s: seq<Entry>, x: Entry)
    ensures x in Insert(e, s) <==> x in s || x == e
    decreases |s|
  {
    if s != [] {
      InsertMembers(e, s[1..], x);
      assert s == [s[0]] + s[1..];
    }
  }

  lemma {:induction false} InsertSorts(e: Entry, s: seq<Entry>)
    requires Ascending(s) && forall x :: x in s ==> x.name != e.name
    ensures Ascending(Insert(e, s)) && |Insert(e, s)| == |s| + 1
    ensures forall x :: x in Insert(e, s) <==> x in s || x == e
    decreases |s|
  {
    if s != [] {
      var r := Insert(e, s);
      assert s == [s[0]] + s[1..];
      if Less(e.name, s[0].name) {
        forall i, j | 0 <= i < j < |r|
          ensures Less(r[i].name, r[j].name)
        {
          if i == 0 && j > 1 {
            LessTransitive(e.name, s[0].name, s[j - 1].name);
          }
        }
      } else {
        InsertSorts(e, s[1..]);
        LessTotal(e.name, s[0].name);
        forall i, j | 0 <= i < j < |r|
          ensures Less(r[i].name, r[j].name)
        {
          if i == 0 {
            assert r[j] in Insert(e, s[1..]);
            assert r[j] == e || r[j] in s[1..];
          }
        }
      }
    }
  }

  lemma {:induction false} SortSorts(dir: seq<Entry>)
    requires Directory(dir)
    ensures Ascending(Sort(dir)) && |Sort(dir)| == |dir|
    ensures forall x :: x in Sort(dir) <==> x in dir
    decreases |dir|
  {
    if dir != [] {
      var n := |dir| - 1;
      SortSorts(dir[..n]);
      assert dir == dir[..n] + [dir[n]];
      InsertSorts(dir[n], Sort(dir[..n]));
    }
  }

  // ---------------------------------------------------------------- the files to apply

  const SUFFIX: string := ".up.sql"

  predicate IsMigration(e: Entry) {
    !e.isDir && |e.name| >= |SUFFIX| && e.name[|e.name| - |SUFFIX|..] == SUFFIX
  }

  function Version(e: Entry): string
    requires IsMigration(e)
  {
    e.name[..|e.name| - |SUFFIX|]
  }

  function Versions(s: seq<Entry>): seq<string> {
    if s == [] then []
    else
      var e := s[|s| - 1];
      Versions(s[..|s| - 1]) + if IsMigration(e) then [Version(e)] else []
  }

  ghost predicate Distinct(vs: seq<string>) {
    forall i, j :: 0 <= i < j < |vs| ==> vs[i] != vs[j]
  }

  /** The versions are those of the files, not directories, named version.up.sql. */
  lemma {:induction false} VersionsMembers(s: seq<Entry>, v: string)
    ensures v in Versions(s) <==> Entry(v + ".up.sql", false) in s
    decreases |s|
  {
    if s != [] {
      var n := |s| - 1;
      var e := s[n];
      VersionsMembers(s[..n], v);
      assert s == s[..n] + [e];
      VersionOf(e, v);
    }
  }

  lemma VersionOf(e: Entry, v: string)
    ensures IsMigration(e) && Version(e) == v <==> e == Entry(v + ".up.sql", false)
  {
    if IsMigration(e) {
      assert e.name == Version(e) + SUFFIX;
    }
    var w := v + SUFFIX;
    assert w[|w| - |SUFFIX|..] == SUFFIX && w[..|w| - |SUFFIX|] == v;
  }

  lemma {:induction false} VersionsAscending(s: seq<Entry>)
    requires Ascending(s)
    ensures var vs := Versions(s);
            forall i, j :: 0 <= i < j < |vs| ==> Less(vs[i] + ".up.sql", vs[j] + ".up.sql")
    decreases |s|
  {
    if s != [] {
      var n := |s| - 1;
      VersionsAscending(s[..n]);
      if IsMigration(s[n]) {
        VersionOf(s[n], Version(s[n]));
        forall v | v in Versions(s[..n])
          ensures Less(v + ".up.sql", s[n].name)
        {
          VersionsMembers(s[..n], v);
        }
        assert Version(s[n]) + ".up.sql" == s[n].name;
        assert forall i :: 0 <= i < |Versions(s[..n])| ==> Versions(s)[i] in Versions(s[..n]);
      }
    }
  }

  lemma {:induction false} VersionsDistinct(s: seq<Entry>)
    requires Ascending(s)
    ensures Distinct(Versions(s))
    decreases |s|
  {
    if s != [] {
      var n := |s| - 1;
      VersionsDistinct(s[..n]);
      if IsMigration(s[n]) && Version(s[n]) in Versions(s[..n]) {
        VersionsMembers(s[..n], Version(s[n]));
        assert s[n].name == Version(s[n]) + SUFFIX;
        LessIrreflexive(s[n].name);
      }
    }
  }

  lemma {:induction false} VersionsPrefix(s: seq<Entry>, n: nat)
    requires n <= |s|
    ensures Versions(s[..n]) <= Versions(s)
    decreases |s| - n
  {
    if n < |s| {
      VersionsPrefix(s, n + 1);
      assert s[..n + 1][..n] == s[..n];
    } else {
      assert s[..n] == s;
    }
  }

  // ---------------------------------------------------------------- applying

  /** Each version that is not recorded yet is executed and recorded. */
  function Fill(log: seq<string>, vs: seq<string>): seq<string> {
    if vs == [] then log
    else
      var l, v := Fill(log, vs[..|vs| - 1]), vs[|vs| - 1];
      if v in l then l else l + [v]
  }

  class Migrator {
    var log: seq<string>

    constructor ()
      ensures log == []
    {
      log := [];
    }

    /** One run; it fails at the entry with index `stop`, if there is one. */
    method Apply(dir: seq<Entry>, stop: nat) returns (done: bool)
      modifies this
      ensures done == (stop >= |Sort(dir)|)
      ensures log == Fill(old(log), Versions(Sort(dir)[..if done then |Sort(dir)| else stop]))
      ensures log == Effect(old(log), Attempt(dir, stop))
      ensures old(log) <= log
      ensures forall v :: v in log && v !in old(log) ==> Entry(v + ".up.sql", false) in dir
      ensures done ==> forall v :: Entry(v + ".up.sql", false) in dir ==> v in log
    {
      RunMeaning(log, dir, stop);
      var entries := Sort(dir);
      for i := 0 to |entries|
        invariant i <= stop
        invariant log == Fill(old(log), Versions(entries[..i]))
      {
        if i == stop {
          return false;
        }
        assert entries[..i + 1][..i] == entries[..i];
        var e := entries[i];
        if !IsMigration(e) {
          assert Versions(entries[..i + 1]) == Versions(entries[..i]);
          continue;
        }
        ghost var vs := Versions(entries[..i + 1]);
        assert vs[..|vs| - 1] == Versions(entries[..i]);
        if Version(e) in log {
          continue;
        }
        log := log + [Version(e)];
      }
      assert entries[..|entries|] == entries;
      done := true;
    }
  }

  lemma {:induction false} FillMembers(log: seq<string>, vs: seq<string>, v: string)
    ensures v in Fill(log, vs) <==> v in log || v in vs
    decreases |vs|
  {
    if vs != [] {
      var n := |vs| - 1;
      FillMembers(log, vs[..n], v);
      assert vs == vs[..n] + [vs[n]];
    }
  }

  /** One run keeps what was applied, adds only files of the directory and, unless it stops, all of them. */
  lemma RunMeaning(log: seq<string>, dir: seq<Entry>, stop: nat)
    ensures var after := Effect(log, Attempt(dir, stop));
            && log <= after
            && (forall v :: v in after && v !in log ==> Entry(v + ".up.sql", false) in dir)
            && (stop >= |Sort(dir)| ==> forall v :: Entry(v + ".up.sql", false) in dir ==> v in after)
  {
    var entries := Sort(dir);
    var part := entries[..if stop >= |entries| then |entries| else stop];
    FillExtends(log, Versions(part));
    forall v
      ensures v in Fill(log, Versions(part)) && v !in log ==> Entry(v + ".up.sql", false) in dir
      ensures stop >= |entries| && Entry(v + ".up.sql", false) in dir ==> v in Fill(log, Versions(part))
    {
      FillMembers(log, Versions(part), v);
      VersionsMembers(part, v);
      SortMembers(dir, Entry(v + ".up.sql", false));
    }
  }

  lemma {:induction false} FillExtends(log: seq<string>, vs: seq<string>)
    ensures log <= Fill(log, vs)
    decreases |vs|
  {
    if vs != [] {
      FillExtends(log, vs[..|vs| - 1]);
    }
  }

  /** From a log that is a prefix of the files, processing some prefix of them gives the longer of the two. */
  lemma {:induction false} FillPrefix(vs: seq<string>, k: nat, n: nat)
    requires Distinct(vs) && k <= |vs| && n <= |vs|
    ensures Fill(vs[..k], vs[..n]) == vs[..if k < n then n else k]
    decreases n
  {
    if n > 0 {
      FillPrefix(vs, k, n - 1);
      assert vs[..n][..n - 1] == vs[..n - 1];
    }
  }

  /** A complete run gives every file once in name order exactly when what was applied before is a prefix of it. */
  lemma CompleteRunIff(log: seq<string>, vs: seq<string>)
    requires Distinct(vs)
    ensures Fill(log, vs) == vs <==> log <= vs
  {
    FillExtends(log, vs);
    if log <= vs {
      FillPrefix(vs, |log|, |vs|);
      assert vs[..|log|] == log && vs[..|vs|] == vs;
    }
  }

  /** A file that sorts before one already applied is executed out of order. */
  lemma LateInsertion(a: string, b: string, c: string)
    requires a != b && b != c && a != c
    ensures Fill([a, c], [a, b, c]) == [a, c, b]
  {
    assert [a, b, c][..2] == [a, b] && [a, b][..1] == [a] && [a][..0] == [];
    assert Fill([a, c], [a]) == [a, c];
    assert Fill([a, c], [a, b]) == [a, c, b];
  }

  // ---------------------------------------------------------------- growing directories

  /** `now` has all entries of `was`, and its other names sort after all of them. */
  ghost predicate GrewLater(was: seq<Entry>, now: seq<Entry>) {
    && (forall e :: e in was ==> e in now)
    && (forall e, f :: e in was && f in now && f !in was ==> Less(e.name, f.name))
  }

  lemma {:induction false} SortedPrefixAt(a: seq<Entry>, b: seq<Entry>, i: nat)
    requires Ascending(a) && Ascending(b) && GrewLater(a, b) && i <= |a|
    ensures i <= |b| && a[..i] == b[..i]
    decreases i
  {
    if i > 0 {
      SortedPrefixAt(a, b, i - 1);
      var k := i - 1;
      assert a[k] in b;
      var j :| 0 <= j < |b| && b[j] == a[k];
      NotEarlier(a, b, k, j);
      if j > k {
        assert Less(b[k].name, a[k].name);
        NotBefore(a, b, k);
      }
      assert a[..i] == a[..k] + [a[k]] && b[..i] == b[..k] + [b[k]];
    }
  }

  lemma NotEarlier(a: seq<Entry>, b: seq<Entry>, k: nat, j: nat)
    requires Ascending(a) && k < |a| && j < |b| && b[j] == a[k] && k <= |b| && a[..k] == b[..k]
    ensures j >= k
  {
    if j < k {
      assert a[..k][j] == b[..k][j];
      assert Less(a[j].name, a[k].name);
      LessIrreflexive(a[k].name);
    }
  }

  lemma NotBefore(a: seq<Entry>, b: seq<Entry>, k: nat)
    requires Ascending(a) && Ascending(b) && GrewLater(a, b) && k < |a| && k < |b| && a[..k] == b[..k]
    ensures !Less(b[k].name, a[k].name)
  {
    if Less(b[k].name, a[k].name) {
      if b[k] in a {
        var m :| 0 <= m < |a| && a[m] == b[k];
        if m < k {
          assert a[..k][m] == b[..k][m] && Less(b[m].name, b[k].name);
        } else if m > k {
          LessTransitive(a[k].name, a[m].name, a[k].name);
        }
      } else {
        assert a[k] in a && b[k] in b;
        LessTransitive(a[k].name, b[k].name, a[k].name);
      }
      LessIrreflexive(a[k].name);
      LessIrreflexive(b[k].name);
    }
  }

  /** The files of an older directory come first in the grown one. */
  lemma OlderIsPrefix(was: seq<Entry>, now: seq<Entry>)
    requires Directory(was) && Directory(now) && GrewLater(was, now)
    ensures Sort(was) <= Sort(now)
  {
    SortSorts(was);
    SortSorts(now);
    var a, b := Sort(was), Sort(now);
    assert GrewLater(a, b);
    SortedPrefixAt(a, b, |a|);
    assert a[..|a|] == a;
  }

  // ---------------------------------------------------------------- any number of interrupted runs

  datatype Attempt = Attempt(dir: seq<Entry>, stop: nat)

  function Effect(log: seq<string>, a: Attempt): seq<string> {
    var entries := Sort(a.dir);
    Fill(log, Versions(entries[..if a.stop >= |entries| then |entries| else a.stop]))
  }

  function Effects(log: seq<string>, runs: seq<Attempt>): seq<string> {
    if runs == [] then log else Effect(Effects(log, runs[..|runs| - 1]), runs[|runs| - 1])
  }

  lemma PartIsPrefix(was: seq<Entry>, dir: seq<Entry>, n: nat)
    requires Directory(was) && Directory(dir) && GrewLater(was, dir) && n <= |Sort(was)|
    ensures Versions(Sort(was)[..n]) <= Versions(Sort(dir))
  {
    OlderIsPrefix(was, dir);
    assert Sort(was)[..n] == Sort(dir)[..n];
    VersionsPrefix(Sort(dir), n);
  }

  lemma SortedVersionsDistinct(dir: seq<Entry>)
    requires Directory(dir)
    ensures Distinct(Versions(Sort(dir)))
  {
    SortSorts(dir);
    VersionsDistinct(Sort(dir));
  }

  lemma FillKeepsPrefix(log: seq<string>, part: seq<string>, vs: seq<string>)
    requires Distinct(vs) && log <= vs && part <= vs
    ensures Fill(log, part) <= vs
  {
    assert log == vs[..|log|] && part == vs[..|part|];
    FillPrefix(vs, |log|, |part|);
  }

  /** One more run, stopped anywhere, leaves a prefix of the final order again. */
  lemma RunLeavesPrefix(log: seq<string>, r: Attempt, dir: seq<Entry>)
    requires Directory(dir) && Directory(r.dir) && GrewLater(r.dir, dir) && log <= Versions(Sort(dir))
    ensures Effect(log, r) <= Versions(Sort(dir))
  {
    var n := if r.stop >= |Sort(r.dir)| then |Sort(r.dir)| else r.stop;
    PartIsPrefix(r.dir, dir, n);
    SortedVersionsDistinct(dir);
    FillKeepsPrefix(log, Versions(Sort(r.dir)[..n]), Versions(Sort(dir)));
  }

  /** Runs stopped anywhere leave a prefix of the final order. */
  lemma {:induction false} InterruptedRunsLeavePrefix(runs: seq<Attempt>, dir: seq<Entry>)
    requires Directory(dir)
    requires forall r :: r in runs ==> Directory(r.dir) && GrewLater(r.dir, dir)
    ensures Effects([], runs) <= Versions(Sort(dir))
    decreases |runs|
  {
    if runs != [] {
      var n := |runs| - 1;
      InterruptedRunsLeavePrefix(runs[..n], dir);
      RunLeavesPrefix(Effects([], runs[..n]), runs[n], dir);
    }
  }

  /** Any number of runs, each stopped at any file, on directories that grew only by later names, followed by one
      complete run, execute every migration file of the last directory once, in name order. */
  lemma Restartable(runs: seq<Attempt>, dir: seq<Entry>)
    requires Directory(dir)
    requires forall r :: r in runs ==> Directory(r.dir) && GrewLater(r.dir, dir)
    ensures Fill(Effects([], runs), Versions(Sort(dir))) == Versions(Sort(dir))
    ensures var log := Effect(Effects([], runs), Attempt(dir, |dir|));
            && (forall v :: v in log <==> Entry(v + ".up.sql", false) in dir)
            && (forall i, j :: 0 <= i < j < |log| ==> Less(log[i] + ".up.sql", log[j] + ".up.sql") && log[i] != log[j])
  {
    InterruptedRunsLeavePrefix(runs, dir);
    SortSorts(dir);
    VersionsDistinct(Sort(dir));
    CompleteRunIff(Effects([], runs), Versions(Sort(dir)));
    var log := Versions(Sort(dir));
    assert Sort(dir)[..|Sort(dir)|] == Sort(dir);
    assert Effect(Effects([], runs), Attempt(dir, |dir|)) == log;
    VersionsAscending(Sort(dir));
    forall v
      ensures v in log <==> Entry(v + ".up.sql", false) in dir
    {
      VersionsMembers(Sort(dir), v);
    }
  }
}
