/** Backing up, replacing and restoring certificate files (certs.py). */
module Certs {
  import opened Wrappers

  type Files = map<string, string>

  // ---------- '%s.%d' ----------

  function Decimal(n: nat): (s: string)
    ensures s != "" && forall i :: 0 <= i < |s| ==> '0' <= s[i] <= '9'
  {
    var digit := ['0' + (n % 10) as char];
    if n < 10 then digit else Decimal(n / 10) + digit
  }

  function Indexed(path: string, n: nat): string {
    path + "." + Decimal(n)
  }

  lemma {:induction false} DecimalInjective(m: nat, n: nat)
    requires Decimal(m) == Decimal(n)
    ensures m == n
  {
    var a, b := Decimal(m), Decimal(n);
    assert a[|a| - 1] == '0' + (m % 10) as char && b[|b| - 1] == '0' + (n % 10) as char;
    assert m % 10 == n % 10;
    if m >= 10 && n >= 10 {
      assert Decimal(m / 10) == a[..|a| - 1] && Decimal(n / 10) == b[..|b| - 1];
      DecimalInjective(m / 10, n / 10);
    }
  }

  lemma LastDot(p: string, d: string, q: string, e: string)
    requires '.' !in d && '.' !in e && p + "." + d == q + "." + e
    ensures p == q && d == e
  {
    var name := p + "." + d;
    assert name[|p|] == '.' && name[|q|] == '.';
    assert forall i :: |p| < i < |name| ==> name[i] == d[i - |p| - 1];
    assert forall i :: |q| < i < |name| ==> name[i] == e[i - |q| - 1];
    assert |p| == |q|;
    assert p == name[..|p|] && q == name[..|q|];
    assert d == name[|p| + 1..] && e == name[|q| + 1..];
  }

  /** A backup name tells which file it belongs to. */
  lemma IndexedInjective(p: string, m: nat, q: string, n: nat)
    requires Indexed(p, m) == Indexed(q, n)
    ensures p == q && m == n
  {
    LastDot(p, Decimal(m), q, Decimal(n));
    DecimalInjective(m, n);
  }

  /** The smallest index from idx on whose name is not taken. It exists because the taken names are finite. */
  ghost function FirstFreeFrom(taken: set<string>, path: string, idx: nat): (r: nat)
    ensures r >= idx
    ensures forall j :: idx <= j < r ==> Indexed(path, j) in taken
    ensures Indexed(path, r) !in taken
  {
    if Indexed(path, idx) in taken then
      var r := FirstFreeFrom(taken - {Indexed(path, idx)}, path, idx + 1);
      assert Indexed(path, r) !in taken by {
        if Indexed(path, r) == Indexed(path, idx) { IndexedInjective(path, r, path, idx); }
      }
      r
    else idx
  }

  ghost function Backup(taken: set<string>, path: string): string {
    Indexed(path, FirstFreeFrom(taken, path, 0))
  }

  /** The backup name depends only on which names of its own form are taken. */
  lemma BackupDepends(a: set<string>, b: set<string>, path: string)
    requires forall j: nat :: Indexed(path, j) in a <==> Indexed(path, j) in b
    ensures Backup(a, path) == Backup(b, path)
  {
    var m, n := FirstFreeFrom(a, path, 0), FirstFreeFrom(b, path, 0);
    assert Indexed(path, m) !in b && Indexed(path, n) !in a;
  }

  lemma BackupIsOther(taken: set<string>, path: string)
    ensures Backup(taken, path) != path && Backup(taken, path) !in taken
  {
  }

  // ---------- what the three functions do to the files ----------

  ghost function SaveOne(f: Files, path: string, data: string): Files {
    if path in f then f[Backup(f.Keys, path) := f[path]][path := data] else f[path := data]
  }

  /** backup_and_save_certs: the files, and the backups in the order in which they were made. */
  ghost function SaveAll(f: Files, certs: seq<(string, string)>): (Files, seq<(string, string)>) {
    if certs == [] then (f, [])
    else
      var n := |certs| - 1;
      var (f1, backups) := SaveAll(f, certs[..n]);
      (SaveOne(f1, certs[n].0, certs[n].1),
       if certs[n].0 in f1 then backups + [(certs[n].0, Backup(f1.Keys, certs[n].0))] else backups)
  }

  /** place_new_CAs */
  ghost function PlaceAll(f: Files, caFile: string, cas: seq<string>): Files {
    if cas == [] then f
    else
      var f1 := PlaceAll(f, caFile, cas[..|cas| - 1]);
      f1[Backup(f1.Keys, caFile) := cas[|cas| - 1]]
  }

  /** One iteration of restore_backups; None where unlink or rename raises. */
  function RestoreOne(f: Files, dest: string, src: string): Option<Files> {
    if dest !in f then None
    else if src !in f - {dest} then None
    else Some((f - {dest} - {src})[dest := f[src]])
  }

  function RestoreAll(f: Files, backups: seq<(string, string)>): Option<Files> {
    if backups == [] then Some(f)
    else
      var n := |backups| - 1;
      var r := RestoreAll(f, backups[..n]);
      if r.None? then None else RestoreOne(r.value, backups[n].0, backups[n].1)
  }

  class CertStore {
    var files: Files

    /** The search loop for an index that is free. */
    method FreeName(path: string) returns (name: string)
      ensures name == Backup(files.Keys, path)
    {
      var idx := 0;
      ghost var left := files.Keys;
      while Indexed(path, idx) in files
        invariant forall j :: 0 <= j < idx ==> Indexed(path, j) in files
        invariant forall f :: f in files && f !in left ==> exists j :: 0 <= j < idx && f == Indexed(path, j)
        decreases left
      {
        assert Indexed(path, idx) in left by {
          if Indexed(path, idx) !in left {
            var j :| 0 <= j < idx && Indexed(path, idx) == Indexed(path, j);
            IndexedInjective(path, idx, path, j);
          }
        }
        left := left - {Indexed(path, idx)};
        idx := idx + 1;
      }
      name := Indexed(path, idx);
      FreeIsFirst(files.Keys, path, idx);
    }

    method BackupAndSaveCerts(certs: seq<(string, string)>) returns (backups: seq<(string, string)>)
      modifies this
      ensures (files, backups) == SaveAll(old(files), certs)
    {
      backups := [];
      for i := 0 to |certs|
        invariant (files, backups) == SaveAll(old(files), certs[..i])
      {
        var (path, data) := certs[i];
        assert certs[..i + 1][..i] == certs[..i];
        if path in files {
          var backup := FreeName(path);
          backups := backups + [(path, backup)];
          files := (files - {path})[backup := files[path]];
        }
        files := files[path := data];
        assert files == SaveOne(SaveAll(old(files), certs[..i]).0, path, data);
      }
      assert certs[..|certs|] == certs;
    }

    method PlaceNewCAs(caFile: string, cas: seq<string>)
      modifies this
      ensures files == PlaceAll(old(files), caFile, cas)
    {
      for i := 0 to |cas|
        invariant files == PlaceAll(old(files), caFile, cas[..i])
      {
        var name := FreeName(caFile);
        files := files[name := cas[i]];
        assert cas[..i + 1][..i] == cas[..i];
      }
      assert cas[..|cas|] == cas;
    }

    method RestoreBackups(backups: seq<(string, string)>) returns (raised: bool)
      modifies this
      ensures raised <==> RestoreAll(old(files), backups).None?
      ensures !raised ==> RestoreAll(old(files), backups) == Some(files)
      ensures raised ==> exists m :: 0 <= m < |backups| && BrokenOffAt(old(files), backups, m, files)
    {
      for i := 0 to |backups|
        invariant RestoreAll(old(files), backups[..i]) == Some(files)
      {
        var (dest, src) := backups[i];
        assert backups[..i + 1][..i] == backups[..i];
        if dest !in files {
          NeverRecovers(old(files), backups, i + 1);
          assert files - {dest} == files;
          assert BrokenOffAt(old(files), backups, i, files);
          return true;
        }
        ghost var before := files;
        files := files - {dest};
        if src !in files {
          NeverRecovers(old(files), backups, i + 1);
          assert BrokenOffAt(old(files), backups, i, files);
          return true;
        }
        files := (files - {src})[dest := files[src]];
        assert files == (before - {dest} - {src})[dest := before[src]];
      }
      assert backups[..|backups|] == backups;
      return false;
    }
  }

  /** All backups before the m-th are restored; of the m-th only the file in its place may be gone. */
  ghost predicate BrokenOffAt(f: Files, backups: seq<(string, string)>, m: nat, now: Files)
    requires m < |backups|
  {
    var r := RestoreAll(f, backups[..m]);
    r.Some? && RestoreOne(r.value, backups[m].0, backups[m].1).None? && now == r.value - {backups[m].0}
  }

  lemma FreeIsFirst(taken: set<string>, path: string, idx: nat)
    requires Indexed(path, idx) !in taken && forall j :: 0 <= j < idx ==> Indexed(path, j) in taken
    ensures Indexed(path, idx) == Backup(taken, path)
  {
  }

  lemma {:induction false} NeverRecovers(f: Files, backups: seq<(string, string)>, i: nat)
    requires i <= |backups| && RestoreAll(f, backups[..i]).None?
    ensures RestoreAll(f, backups).None?
    decreases |backups| - i
  {
    if i == |backups| {
      assert backups[..i] == backups;
    } else {
      assert backups[..i + 1][..i] == backups[..i];
      NeverRecovers(f, backups, i + 1);
    }
  }

  // ---------- when a restore brings everything back ----------

  ghost function PathsOf(certs: seq<(string, string)>): set<string> {
    set i | 0 <= i < |certs| :: certs[i].0
  }

  predicate DistinctPaths(certs: seq<(string, string)>) {
    forall i, j :: 0 <= i < j < |certs| ==> certs[i].0 != certs[j].0
  }

  /** A certificate path is the very name under which an earlier one of them will be backed up. */
  ghost predicate ClashAt(existing: set<string>, certs: seq<(string, string)>, i: nat, j: nat)
    requires i < j < |certs|
  {
    certs[i].0 in existing && certs[j].0 == Backup(existing + PathsOf(certs[..i]), certs[i].0)
  }

  ghost predicate Clash(existing: set<string>, certs: seq<(string, string)>) {
    exists i, j :: 0 <= i < j < |certs| && ClashAt(existing, certs, i, j)
  }

  /** The state after certificates without a clash have been saved. */
  ghost predicate Saved(f0: Files, certs: seq<(string, string)>, f: Files, backups: seq<(string, string)>) {
    && (forall x :: 0 <= x < |backups| ==> BackedUp(f0, certs, f, backups[x].0, backups[x].1))
    && (forall x, y :: 0 <= x < y < |backups| ==> backups[x].0 != backups[y].0)
    && (forall p :: p in f0 ==> p in f)
    && (forall p :: p in f0 && p in PathsOf(certs) ==> exists x :: 0 <= x < |backups| && backups[x].0 == p)
    && (forall p :: p in f0 && p !in PathsOf(certs) ==> f[p] == f0[p])
    && (forall i :: 0 <= i < |certs| ==> certs[i].0 in f && f[certs[i].0] == certs[i].1)
    && (forall p :: p in f && p !in f0 && p !in PathsOf(certs) ==> exists x :: 0 <= x < |backups| && backups[x].1 == p)
  }

  /** src holds what dest held, under a name that is neither an old file nor a certificate. */
  ghost predicate BackedUp(f0: Files, certs: seq<(string, string)>, f: Files, dest: string, src: string) {
    && dest in f0 && dest in PathsOf(certs)
    && src !in f0 && src !in PathsOf(certs)
    && src in f && f[src] == f0[dest]
    && (exists i :: 0 <= i < |certs| && certs[i].0 == dest && src == Backup(f0.Keys + PathsOf(certs[..i]), dest))
  }

  lemma PathsSnoc(certs: seq<(string, string)>)
    requires certs != []
    ensures PathsOf(certs) == PathsOf(certs[..|certs| - 1]) + {certs[|certs| - 1].0}
  {
  }

  /** A backup has a name of its own file's form. */
  lemma BackupForm(f0: Files, certs: seq<(string, string)>, f: Files, dest: string, src: string) returns (k: nat)
    requires BackedUp(f0, certs, f, dest, src)
    ensures src == Indexed(dest, k)
  {
    hide Indexed;
    var i :| 0 <= i < |certs| && certs[i].0 == dest && src == Backup(f0.Keys + PathsOf(certs[..i]), dest);
    k := FirstFreeFrom(f0.Keys + PathsOf(certs[..i]), dest, 0);
  }

  lemma OnlyOwnForms(f0: Files, certs: seq<(string, string)>, f: Files, backups: seq<(string, string)>, path: string,
      j: nat)
    requires Saved(f0, certs, f, backups) && path !in PathsOf(certs)
    ensures Indexed(path, j) in f.Keys <==> Indexed(path, j) in f0.Keys + PathsOf(certs)
  {
    hide Indexed, BackedUp;
    if Indexed(path, j) in f && Indexed(path, j) !in f0.Keys + PathsOf(certs) {
      var x :| 0 <= x < |backups| && backups[x].1 == Indexed(path, j);
      var k := BackupForm(f0, certs, f, backups[x].0, backups[x].1);
      IndexedInjective(path, j, backups[x].0, k);
      NotAPath(f0, certs, f, backups[x].0, backups[x].1);
    }
  }

  lemma NotAPath(f0: Files, certs: seq<(string, string)>, f: Files, dest: string, src: string)
    requires BackedUp(f0, certs, f, dest, src)
    ensures dest in PathsOf(certs)
  {
  }

  /** Taken backup names do not matter for the backup name of another path. */
  lemma BackupAmongOwn(f0: Files, certs: seq<(string, string)>, f: Files, backups: seq<(string, string)>, path: string)
    requires Saved(f0, certs, f, backups) && path !in PathsOf(certs)
    ensures Backup(f.Keys, path) == Backup(f0.Keys + PathsOf(certs), path)
  {
    hide Indexed, Saved, PathsOf;
    forall j: nat ensures Indexed(path, j) in f.Keys <==> Indexed(path, j) in f0.Keys + PathsOf(certs) {
      OnlyOwnForms(f0, certs, f, backups, path, j);
    }
    BackupDepends(f.Keys, f0.Keys + PathsOf(certs), path);
  }

  lemma PrefixClash(existing: set<string>, certs: seq<(string, string)>, n: nat)
    requires n <= |certs| && Clash(existing, certs[..n])
    ensures Clash(existing, certs)
  {
    var i, j :| 0 <= i < j < n && ClashAt(existing, certs[..n], i, j);
    assert certs[..n][..i] == certs[..i];
    assert ClashAt(existing, certs, i, j);
  }

  /** A backup made so far stays one when the next certificate has another name. */
  lemma BackupStays(f0: Files, certs: seq<(string, string)>, f1: Files, f2: Files, dest: string, src: string)
    requires certs != [] && BackedUp(f0, certs[..|certs| - 1], f1, dest, src)
    requires src != certs[|certs| - 1].0 && src in f2 && f2[src] == f1[src]
    ensures BackedUp(f0, certs, f2, dest, src)
  {
    hide Backup;
    var n := |certs| - 1;
    PathsSnoc(certs);
    var i :| 0 <= i < n && certs[..n][i].0 == dest && src == Backup(f0.Keys + PathsOf(certs[..n][..i]), dest);
    assert certs[..n][..i] == certs[..i] && certs[i].0 == dest;
  }

  /** The path of the next certificate is an old file or no file at all, unless there is a clash. */
  lemma NextIsNoBackup(f0: Files, certs: seq<(string, string)>, f1: Files, dest: string, src: string)
    requires certs != [] && BackedUp(f0, certs[..|certs| - 1], f1, dest, src) && src == certs[|certs| - 1].0
    ensures Clash(f0.Keys, certs)
  {
    hide Backup;
    var n := |certs| - 1;
    var i :| 0 <= i < n && certs[..n][i].0 == dest && src == Backup(f0.Keys + PathsOf(certs[..n][..i]), dest);
    assert certs[..n][..i] == certs[..i];
    assert ClashAt(f0.Keys, certs, i, n);
  }

  lemma NextIsOldOrNew(f0: Files, certs: seq<(string, string)>, f1: Files, backups: seq<(string, string)>)
    requires certs != [] && DistinctPaths(certs) && !Clash(f0.Keys, certs)
    requires Saved(f0, certs[..|certs| - 1], f1, backups)
    ensures var path := certs[|certs| - 1].0;
      && path !in PathsOf(certs[..|certs| - 1])
      && (path in f1 <==> path in f0)
      && forall x :: 0 <= x < |backups| ==> backups[x].1 != path && backups[x].0 != path
  {
    hide Clash, BackedUp;
    var path := certs[|certs| - 1].0;
    assert path !in PathsOf(certs[..|certs| - 1]);
    forall x | 0 <= x < |backups| ensures backups[x].1 != path && backups[x].0 != path {
      if backups[x].1 == path {
        NextIsNoBackup(f0, certs, f1, backups[x].0, backups[x].1);
      }
      NotAPath(f0, certs[..|certs| - 1], f1, backups[x].0, backups[x].1);
    }
  }

  lemma SavedStep(f0: Files, certs: seq<(string, string)>, f1: Files, backups: seq<(string, string)>)
    requires certs != [] && DistinctPaths(certs) && !Clash(f0.Keys, certs)
    requires Saved(f0, certs[..|certs| - 1], f1, backups)
    ensures var (path, data) := certs[|certs| - 1];
      Saved(f0, certs, SaveOne(f1, path, data), if path in f1 then backups + [(path, Backup(f1.Keys, path))] else backups)
  {
    hide BackedUp, Clash, PathsOf, Backup;
    var n := |certs| - 1;
    var (path, data) := certs[n];
    var f2 := SaveOne(f1, path, data);
    var all := if path in f1 then backups + [(path, Backup(f1.Keys, path))] else backups;
    PathsSnoc(certs);
    NextIsOldOrNew(f0, certs, f1, backups);
    BackupIsOther(f1.Keys, path);
    forall x | 0 <= x < |backups| ensures BackedUp(f0, certs, f2, backups[x].0, backups[x].1) {
      SourceExists(f0, certs[..n], f1, backups[x].0, backups[x].1);
      BackupStays(f0, certs, f1, f2, backups[x].0, backups[x].1);
    }
    if path in f1 {
      NewBackup(f0, certs, f1, backups);
      assert all[|backups|].0 == path;
    }
    forall p | p in f0 && p in PathsOf(certs) ensures exists x :: 0 <= x < |all| && all[x].0 == p {
      if p != path {
        var x :| 0 <= x < |backups| && backups[x].0 == p;
        assert all[x].0 == p;
      }
    }
    forall p | p in f2 && p !in f0 && p !in PathsOf(certs) ensures exists x :: 0 <= x < |all| && all[x].1 == p {
      if p in f1 {
        var x :| 0 <= x < |backups| && backups[x].1 == p;
        assert all[x].1 == p;
      } else {
        assert all[|backups|].1 == p;
      }
    }
    forall i | 0 <= i < |certs| ensures certs[i].0 in f2 && f2[certs[i].0] == certs[i].1 {
      if i < n {
        assert certs[..n][i] == certs[i];
      }
    }
  }

  lemma SourceExists(f0: Files, certs: seq<(string, string)>, f: Files, dest: string, src: string)
    requires BackedUp(f0, certs, f, dest, src)
    ensures src in f && src !in f0
  {
  }

  lemma SavedKeeps(f0: Files, certs: seq<(string, string)>, f: Files, backups: seq<(string, string)>, path: string)
    requires Saved(f0, certs, f, backups)
    ensures PathsOf(certs) <= f.Keys && f0.Keys <= f.Keys
    ensures path in f0 && path !in PathsOf(certs) ==> f[path] == f0[path]
  {
    hide BackedUp;
    forall q | q in PathsOf(certs) ensures q in f {
      var i :| 0 <= i < |certs| && certs[i].0 == q;
    }
  }

  lemma NewBackup(f0: Files, certs: seq<(string, string)>, f1: Files, backups: seq<(string, string)>)
    requires certs != [] && DistinctPaths(certs) && !Clash(f0.Keys, certs)
    requires Saved(f0, certs[..|certs| - 1], f1, backups) && certs[|certs| - 1].0 in f1
    ensures var (path, data) := certs[|certs| - 1];
      BackedUp(f0, certs, SaveOne(f1, path, data), path, Backup(f1.Keys, path))
  {
    hide Clash, Backup, Saved, PathsOf;
    var n := |certs| - 1;
    var path := certs[n].0;
    PathsSnoc(certs);
    NextIsOldOrNew(f0, certs, f1, backups);
    BackupIsOther(f1.Keys, path);
    BackupAmongOwn(f0, certs[..n], f1, backups, path);
    SavedKeeps(f0, certs[..n], f1, backups, path);
    assert certs[n].0 == path && Backup(f1.Keys, path) == Backup(f0.Keys + PathsOf(certs[..n]), path);
  }

  lemma {:induction false} SaveAllSaves(f0: Files, certs: seq<(string, string)>)
    requires DistinctPaths(certs) && !Clash(f0.Keys, certs)
    ensures Saved(f0, certs, SaveAll(f0, certs).0, SaveAll(f0, certs).1)
  {
    if certs != [] {
      var n := |certs| - 1;
      if Clash(f0.Keys, certs[..n]) {
        PrefixClash(f0.Keys, certs, n);
      }
      SaveAllSaves(f0, certs[..n]);
      SavedStep(f0, certs, SaveAll(f0, certs[..n]).0, SaveAll(f0, certs[..n]).1);
    }
  }

  /** Nothing that was there is gone or changed. */
  predicate Extends(f: Files, f': Files) {
    forall p :: p in f ==> p in f' && f'[p] == f[p]
  }

  /** Placing new CAs overwrites nothing, and every one of them is stored. */
  lemma {:induction false} PlacingOverwritesNothing(f: Files, caFile: string, cas: seq<string>)
    ensures Extends(f, PlaceAll(f, caFile, cas))
    ensures forall i :: 0 <= i < |cas| ==>
      exists k: nat :: Indexed(caFile, k) !in f && StoredAt(PlaceAll(f, caFile, cas), caFile, k, cas[i])
  {
    if cas != [] {
      var n := |cas| - 1;
      PlacingOverwritesNothing(f, caFile, cas[..n]);
      var f1 := PlaceAll(f, caFile, cas[..n]);
      var k0 := FirstFreeFrom(f1.Keys, caFile, 0);
      forall i | 0 <= i < |cas|
        ensures exists k: nat :: Indexed(caFile, k) !in f && StoredAt(PlaceAll(f, caFile, cas), caFile, k, cas[i])
      {
        if i < n {
          var k: nat :| Indexed(caFile, k) !in f && StoredAt(f1, caFile, k, cas[..n][i]);
          assert StoredAt(PlaceAll(f, caFile, cas), caFile, k, cas[i]);
        } else {
          assert StoredAt(PlaceAll(f, caFile, cas), caFile, k0, cas[i]);
        }
      }
    }
  }

  /** Nothing else is written: every new CA makes one more file, and every new file has an indexed name. */
  lemma {:induction false} PlacingAddsOneEach(f: Files, caFile: string, cas: seq<string>)
    ensures |PlaceAll(f, caFile, cas).Keys| == |f.Keys| + |cas|
    ensures forall name :: name in PlaceAll(f, caFile, cas) && name !in f ==>
      exists k: nat, i :: 0 <= i < |cas| && name == Indexed(caFile, k) && PlaceAll(f, caFile, cas)[name] == cas[i]
  {
    if cas != [] {
      var n := |cas| - 1;
      PlacingAddsOneEach(f, caFile, cas[..n]);
      var f1 := PlaceAll(f, caFile, cas[..n]);
      var k0 := FirstFreeFrom(f1.Keys, caFile, 0);
      var f2 := PlaceAll(f, caFile, cas);
      assert f2.Keys == f1.Keys + {Indexed(caFile, k0)};
      forall name | name in f2 && name !in f
        ensures exists k: nat, i :: 0 <= i < |cas| && name == Indexed(caFile, k) && f2[name] == cas[i]
      {
        if name == Indexed(caFile, k0) {
          assert f2[name] == cas[n];
        } else {
          var k: nat, i :| 0 <= i < n && name == Indexed(caFile, k) && f1[name] == cas[..n][i];
          assert f2[name] == cas[i];
        }
      }
    }
  }

  predicate StoredAt(f: Files, caFile: string, k: nat, content: string) {
    Indexed(caFile, k) in f && f[Indexed(caFile, k)] == content
  }

  /** Backups whose restores do not get in each other's way. */
  ghost predicate Independent(f: Files, backups: seq<(string, string)>) {
    && (forall x :: 0 <= x < |backups| ==> backups[x].0 in f && backups[x].1 in f)
    && (forall x, y :: 0 <= x < |backups| && 0 <= y < |backups| ==> backups[x].0 != backups[y].1)
    && (forall x, y :: 0 <= x < y < |backups| ==> backups[x].0 != backups[y].0 && backups[x].1 != backups[y].1)
  }

  ghost function Sources(backups: seq<(string, string)>, m: nat): set<string>
    requires m <= |backups|
  {
    set x | 0 <= x < m :: backups[x].1
  }

  ghost function Destinations(backups: seq<(string, string)>, m: nat): set<string>
    requires m <= |backups|
  {
    set x | 0 <= x < m :: backups[x].0
  }

  lemma OneMoreBackup(f: Files, backups: seq<(string, string)>, m: nat)
    requires m < |backups| && Independent(f, backups)
    ensures Sources(backups, m + 1) == Sources(backups, m) + {backups[m].1}
    ensures Destinations(backups, m + 1) == Destinations(backups, m) + {backups[m].0}
    ensures backups[m].1 !in Sources(backups, m) && backups[m].1 !in Destinations(backups, m)
    ensures backups[m].0 !in Sources(backups, m) && backups[m].0 != backups[m].1
    ensures forall x :: 0 <= x < m ==> backups[x].0 != backups[m].0
    ensures forall x :: 0 <= x < m ==> backups[x].0 !in Sources(backups, m + 1)
  {
  }

  /** The files after the first m backups have been restored. */
  ghost predicate Restored(f: Files, backups: seq<(string, string)>, m: nat, r: Files)
    requires m <= |backups| && Independent(f, backups)
  {
    && r.Keys == f.Keys - Sources(backups, m)
    && (forall x :: 0 <= x < m ==> backups[x].0 in r && r[backups[x].0] == f[backups[x].1])
    && (forall p :: p in r && p !in Destinations(backups, m) ==> r[p] == f[p])
  }

  lemma RestoredStep(f: Files, backups: seq<(string, string)>, m: nat, r: Files)
    requires m < |backups| && Independent(f, backups) && Restored(f, backups, m, r)
    ensures var r' := RestoreOne(r, backups[m].0, backups[m].1); r'.Some? && Restored(f, backups, m + 1, r'.value)
  {
    hide Sources, Destinations;
    OneMoreBackup(f, backups, m);
    var (dest, src) := backups[m];
    assert dest in f && src in f;
    var r' := RestoreOne(r, dest, src);
    assert r'.value.Keys == f.Keys - Sources(backups, m + 1);
    forall x | 0 <= x < m + 1 ensures backups[x].0 in r'.value && r'.value[backups[x].0] == f[backups[x].1] {
      if x < m {
        assert backups[x].0 != dest && backups[x].0 != src;
      }
    }
  }

  lemma {:induction false} IndependentRestore(f: Files, backups: seq<(string, string)>, m: nat)
    requires m <= |backups| && Independent(f, backups)
    ensures var r := RestoreAll(f, backups[..m]); r.Some? && Restored(f, backups, m, r.value)
  {
    hide RestoreOne;
    if m > 0 {
      IndependentRestore(f, backups, m - 1);
      assert backups[..m][..m - 1] == backups[..m - 1];
      hide Restored;
      RestoredStep(f, backups, m - 1, RestoreAll(f, backups[..m - 1]).value);
    }
  }

  lemma SavedIsIndependent(f0: Files, certs: seq<(string, string)>, f: Files, backups: seq<(string, string)>)
    requires Saved(f0, certs, f, backups)
    ensures Independent(f, backups)
  {
    hide Indexed, PathsOf;
    forall x, y | 0 <= x < y < |backups| ensures backups[x].1 != backups[y].1 {
      var k := BackupForm(f0, certs, f, backups[x].0, backups[x].1);
      var l := BackupForm(f0, certs, f, backups[y].0, backups[y].1);
      if backups[x].1 == backups[y].1 {
        IndexedInjective(backups[x].0, k, backups[y].0, l);
      }
    }
  }

  /** Without a clash: whatever was added in the meantime, restoring the backups does not raise, gives
      every file that existed before its content back, removes exactly the backups and touches nothing else. */
  lemma RestoreBringsBack(f0: Files, certs: seq<(string, string)>, f: Files)
    requires DistinctPaths(certs) && !Clash(f0.Keys, certs) && Extends(SaveAll(f0, certs).0, f)
    ensures var backups := SaveAll(f0, certs).1;
      var r := RestoreAll(f, backups);
      && r.Some?
      && Extends(f0, r.value)
      && r.value.Keys == f.Keys - Sources(backups, |backups|)
      && (forall p :: p in r.value && p !in f0 ==> r.value[p] == f[p])
  {
    hide Clash, SaveAll, Saved, RestoreAll;
    SaveAllSaves(f0, certs);
    var f1, backups := SaveAll(f0, certs).0, SaveAll(f0, certs).1;
    SavedIsIndependent(f0, certs, f1, backups);
    IndependentRestore(f, backups, |backups|);
    assert backups[..|backups|] == backups;
    var r := RestoreAll(f, backups).value;
    forall p | p in f0 ensures p in r && r[p] == f0[p] {
      OldFileRestored(f0, certs, f1, backups, f, r, p);
    }
    forall x | 0 <= x < |backups| ensures backups[x].0 in f0 {
      OldDestination(f0, certs, f1, backups, x);
    }
  }

  lemma OldDestination(f0: Files, certs: seq<(string, string)>, f1: Files, backups: seq<(string, string)>, x: nat)
    requires Saved(f0, certs, f1, backups) && x < |backups|
    ensures backups[x].0 in f0 && backups[x].0 in PathsOf(certs)
    ensures backups[x].1 in f1 && f1[backups[x].1] == f0[backups[x].0] && backups[x].1 !in f0
  {
    assert BackedUp(f0, certs, f1, backups[x].0, backups[x].1);
  }

  lemma OldFileRestored(f0: Files, certs: seq<(string, string)>, f1: Files, backups: seq<(string, string)>, f: Files,
      r: Files, p: string)
    requires Saved(f0, certs, f1, backups) && Extends(f1, f) && p in f0
    requires Independent(f, backups) && Restored(f, backups, |backups|, r)
    ensures p in r && r[p] == f0[p]
  {
    hide BackedUp, PathsOf, Independent;
    forall x | 0 <= x < |backups| ensures backups[x].1 != p {
      OldDestination(f0, certs, f1, backups, x);
    }
    if p in PathsOf(certs) {
      var x :| 0 <= x < |backups| && backups[x].0 == p;
      OldDestination(f0, certs, f1, backups, x);
    } else {
      forall x | 0 <= x < |backups| ensures backups[x].0 != p {
        OldDestination(f0, certs, f1, backups, x);
      }
    }
  }

  // ---------- and when it does not ----------

  lemma {:induction false} StaysAbsent(f: Files, backups: seq<(string, string)>, x: nat, m: nat)
    requires x < m <= |backups| && RestoreAll(f, backups[..m]).Some?
    ensures backups[x].1 !in RestoreAll(f, backups[..m]).value
  {
    assert backups[..m][..m - 1] == backups[..m - 1];
    if x < m - 1 {
      StaysAbsent(f, backups, x, m - 1);
    }
  }

  lemma BackupsGrow(f0: Files, certs: seq<(string, string)>)
    requires certs != []
    ensures SaveAll(f0, certs[..|certs| - 1]).1 <= SaveAll(f0, certs).1
    ensures certs[|certs| - 1].0 in SaveAll(f0, certs[..|certs| - 1]).0 ==>
      var before, after := SaveAll(f0, certs[..|certs| - 1]).1, SaveAll(f0, certs).1;
      |after| == |before| + 1 && after[|before|].0 == certs[|certs| - 1].0
  {
    hide Backup, SaveOne;
  }

  lemma {:induction false} ClashShows(f0: Files, certs: seq<(string, string)>) returns (x: nat, y: nat)
    requires DistinctPaths(certs) && Clash(f0.Keys, certs)
    ensures var backups := SaveAll(f0, certs).1; x < y < |backups| && backups[x].1 == backups[y].0
    decreases |certs|
  {
    hide Backup, SaveAll, Saved;
    var i, j :| 0 <= i < j < |certs| && ClashAt(f0.Keys, certs, i, j);
    var n := |certs| - 1;
    BackupsGrow(f0, certs);
    if Clash(f0.Keys, certs[..n]) {
      x, y := ClashShows(f0, certs[..n]);
    } else {
      if j < n {
        EarlierClash(f0.Keys, certs, i, j);
      }
      SaveAllSaves(f0, certs[..n]);
      x, y := FirstClash(f0, certs, i, SaveAll(f0, certs[..n]).0, SaveAll(f0, certs[..n]).1);
    }
  }

  lemma EarlierClash(existing: set<string>, certs: seq<(string, string)>, i: nat, j: nat)
    requires i < j < |certs| - 1 && ClashAt(existing, certs, i, j)
    ensures Clash(existing, certs[..|certs| - 1])
  {
    hide Backup;
    assert certs[..|certs| - 1][..i] == certs[..i];
    assert ClashAt(existing, certs[..|certs| - 1], i, j);
  }

  lemma FirstClash(f0: Files, certs: seq<(string, string)>, i: nat, f1: Files, backups: seq<(string, string)>)
    returns (x: nat, y: nat)
    requires i < |certs| - 1 && DistinctPaths(certs) && ClashAt(f0.Keys, certs, i, |certs| - 1)
    requires Saved(f0, certs[..|certs| - 1], f1, backups)
    ensures x < y == |backups| && backups[x].1 == certs[|certs| - 1].0 && certs[|certs| - 1].0 in f1
  {
    hide Backup, BackedUp;
    var n := |certs| - 1;
    assert certs[..n][i].0 in PathsOf(certs[..n]);
    x :| 0 <= x < |backups| && backups[x].0 == certs[i].0;
    assert certs[..n][..i] == certs[..i];
    BackupNameOf(f0, certs[..n], f1, backups[x].0, backups[x].1, i);
    SourceExists(f0, certs[..n], f1, backups[x].0, backups[x].1);
    y := |backups|;
  }

  lemma BackupNameOf(f0: Files, certs: seq<(string, string)>, f: Files, dest: string, src: string, i: nat)
    requires BackedUp(f0, certs, f, dest, src) && DistinctPaths(certs) && i < |certs| && certs[i].0 == dest
    ensures src == Backup(f0.Keys + PathsOf(certs[..i]), dest)
  {
    hide Backup;
    var k :| 0 <= k < |certs| && certs[k].0 == dest && src == Backup(f0.Keys + PathsOf(certs[..k]), dest);
    assert k == i;
  }

  /** With a clash, restoring always raises, whatever was added in the meantime: the backup of one file is
      taken for a certificate that is in the way of another. */
  lemma ClashBreaksRestore(f0: Files, certs: seq<(string, string)>, f: Files)
    requires DistinctPaths(certs) && Clash(f0.Keys, certs)
    ensures RestoreAll(f, SaveAll(f0, certs).1).None?
  {
    var backups := SaveAll(f0, certs).1;
    var x, y := ClashShows(f0, certs);
    assert backups[..y + 1][..y] == backups[..y];
    if RestoreAll(f, backups[..y]).Some? {
      StaysAbsent(f, backups, x, y);
    }
    NeverRecovers(f, backups, y + 1);
  }

  /** Certificates never clash, in whatever order they come, if none of them has the first free backup name
      of another one that exists. */
  lemma SafeInEveryOrder(existing: set<string>, certs: seq<(string, string)>)
    requires forall p, q :: p in PathsOf(certs) && q in PathsOf(certs) && p in existing ==> q != Backup(existing, p)
    ensures !Clash(existing, certs)
  {
    if Clash(existing, certs) {
      var i, j :| 0 <= i < j < |certs| && ClashAt(existing, certs, i, j);
      var p, earlier := certs[i].0, PathsOf(certs[..i]);
      assert p in PathsOf(certs) && certs[j].0 in PathsOf(certs);
      PathsPrefix(certs, i);
      FreeIsFirst(existing + earlier, p, FirstFreeFrom(existing, p, 0));
    }
  }

  lemma PathsPrefix(certs: seq<(string, string)>, i: nat)
    requires i <= |certs|
    ensures PathsOf(certs[..i]) <= PathsOf(certs)
  {
    forall p | p in PathsOf(certs[..i]) ensures p in PathsOf(certs) {
      var k :| 0 <= k < i && certs[..i][k].0 == p;
      assert certs[k].0 == p;
    }
  }

  /** And they do clash when one that exists comes first and one with its first free backup name follows. */
  lemma UnsafeInSomeOrder(existing: set<string>, certs: seq<(string, string)>)
    requires |certs| >= 2 && certs[0].0 in existing && certs[1].0 == Backup(existing, certs[0].0)
    ensures Clash(existing, certs)
  {
    assert certs[..0] == [];
    assert existing + PathsOf(certs[..0]) == existing;
    assert ClashAt(existing, certs, 0, 1);
  }
}
