/** Backup rotation of `_create_backup`: after writing a new backup, the
    files matching `memory_backup_*.json` are sorted by name and all but the
    last ten are deleted. Backup names embed a `%Y%m%d_%H%M%S` timestamp, so
    name order is age order. The directory is given as its listing. */
module Backups {
  import opened Text
  import opened Slices
  import opened OrderedMaps

  const BackupPrefix := "memory_backup_"
  const BackupSuffix := ".json"
  const KeptBackups := 10

  /** The glob `memory_backup_*.json`: the `*` may match the empty string. */
  predicate IsBackupName(name: string) {
    |name| >= |BackupPrefix| + |BackupSuffix|
    && name[..|BackupPrefix|] == BackupPrefix
    && name[|name| - |BackupSuffix|..] == BackupSuffix
  }

  /** The name of the backup written at `stamp`. */
  function BackupName(stamp: string): (name: string)
    ensures IsBackupName(name)
  {
    var name := BackupPrefix + stamp + BackupSuffix;
    assert name[..|BackupPrefix|] == BackupPrefix;
    assert name[|name| - |BackupSuffix|..] == BackupSuffix;
    name
  }

  /** The listing entries that match the backup glob, in listing order. */
  function BackupNames(listing: seq<string>): (names: seq<string>)
    ensures forall n :: n in names <==> n in listing && IsBackupName(n)
  {
    if listing == [] then []
    else
      var last := listing[|listing| - 1];
      BackupNames(listing[..|listing| - 1]) + (if IsBackupName(last) then [last] else [])
  }

  predicate SortedNames(xs: seq<string>) {
    forall i, j :: 0 <= i < j < |xs| ==> StrLe(xs[i], xs[j])
  }

  function InsertName(sorted: seq<string>, x: string): (r: seq<string>)
    ensures multiset(r) == multiset(sorted) + multiset{x}
  {
    if sorted == [] then [x]
    else if StrLe(x, sorted[0]) then [x] + sorted
    else
      assert sorted == [sorted[0]] + sorted[1..];
      [sorted[0]] + InsertName(sorted[1..], x)
  }

  lemma {:induction false} InsertNameSorted(sorted: seq<string>, x: string)
    requires SortedNames(sorted)
    ensures SortedNames(InsertName(sorted, x))
  {
    if sorted == [] {
    } else if StrLe(x, sorted[0]) {
      var r := [x] + sorted;
      forall i, j | 0 <= i < j < |r| ensures StrLe(r[i], r[j]) {
        if i == 0 && j > 1 {
          assert StrLe(sorted[0], sorted[j - 1]);
          StrLeTransitive(x, sorted[0], r[j]);
        }
      }
    } else {
      StrLeTotal(x, sorted[0]);
      var rest := InsertName(sorted[1..], x);
      InsertNameSorted(sorted[1..], x);
      forall y | y in rest ensures StrLe(sorted[0], y) {
        assert y in multiset(rest);
        assert y in multiset(sorted[1..]) || y == x;
      }
      assert InsertName(sorted, x) == [sorted[0]] + rest;
    }
  }

  /** `sorted(...)` of the backup paths: ascending name order. */
  function SortNames(xs: seq<string>): (r: seq<string>)
    ensures SortedNames(r)
    ensures multiset(r) == multiset(xs)
    ensures |r| == |xs|
  {
    if xs == [] then []
    else
      assert xs == xs[..|xs| - 1] + [xs[|xs| - 1]];
      InsertNameSorted(SortNames(xs[..|xs| - 1]), xs[|xs| - 1]);
      InsertName(SortNames(xs[..|xs| - 1]), xs[|xs| - 1])
  }

  /** `backups[:-10]` when there are more than ten backups, else nothing. */
  function Doomed(listing: seq<string>): (doomed: seq<string>)
    ensures |doomed| == Max(|BackupNames(listing)| - KeptBackups, 0)
  {
    var backups := SortNames(BackupNames(listing));
    if |backups| > KeptBackups then backups[..|backups| - KeptBackups] else []
  }

  /** The backups that survive rotation. */
  function Kept(listing: seq<string>): (kept: seq<string>)
    ensures |kept| == Min(KeptBackups, |BackupNames(listing)|)
  {
    var backups := SortNames(BackupNames(listing));
    if |backups| > KeptBackups then backups[|backups| - KeptBackups..] else backups
  }

  /** Rotation splits the sorted backups into a deleted prefix and a kept
      suffix of at most ten; only backup files are deleted; every deleted
      backup sorts no later than every kept one (oldest pruned first). */
  lemma RotationMeaning(listing: seq<string>)
    ensures Doomed(listing) + Kept(listing) == SortNames(BackupNames(listing))
    ensures |Kept(listing)| == Min(KeptBackups, |BackupNames(listing)|)
    ensures forall d :: d in Doomed(listing) ==> d in listing && IsBackupName(d)
    ensures forall d, k :: d in Doomed(listing) && k in Kept(listing) ==> StrLe(d, k)
  {
    var backups := SortNames(BackupNames(listing));
    var cut := if |backups| > KeptBackups then |backups| - KeptBackups else 0;
    assert Doomed(listing) == backups[..cut];
    assert Kept(listing) == backups[cut..];
    SplitParts(backups, cut);
    DoomedAreBackups(listing, backups[..cut]);
    PrefixBeforeSuffix(backups, cut);
  }

  lemma SplitParts(xs: seq<string>, cut: nat)
    requires cut <= |xs|
    ensures xs[..cut] + xs[cut..] == xs
    ensures |xs[cut..]| == |xs| - cut
    ensures multiset(xs[..cut]) <= multiset(xs)
  {
    assert xs == xs[..cut] + xs[cut..];
    assert multiset(xs) == multiset(xs[..cut]) + multiset(xs[cut..]);
  }

  lemma DoomedAreBackups(listing: seq<string>, doomed: seq<string>)
    requires multiset(doomed) <= multiset(SortNames(BackupNames(listing)))
    ensures forall d :: d in doomed ==> d in listing && IsBackupName(d)
  {
    forall d | d in doomed ensures d in listing && IsBackupName(d) {
      assert d in multiset(doomed);
      assert d in multiset(BackupNames(listing));
    }
  }

  lemma PrefixBeforeSuffix(xs: seq<string>, cut: nat)
    requires SortedNames(xs) && cut <= |xs|
    ensures forall d, k :: d in xs[..cut] && k in xs[cut..] ==> StrLe(d, k)
  {
    forall d, k | d in xs[..cut] && k in xs[cut..] ensures StrLe(d, k) {
      var i :| 0 <= i < cut && xs[..cut][i] == d;
      var j :| 0 <= j < |xs| - cut && xs[cut..][j] == k;
      assert xs[i] == d && xs[cut + j] == k;
    }
  }

  /** The loop of `_create_backup` that deletes `backups[:-10]`: the directory
      `files`, whose listing is `listing`, loses exactly the doomed backups. */
  method RemoveOldBackups(files: set<string>, listing: seq<string>) returns (remaining: set<string>)
    ensures remaining == files - set d | d in Doomed(listing)
    ensures forall n :: n in files && !IsBackupName(n) ==> n in remaining
    ensures forall n :: n in remaining && n in listing && IsBackupName(n) ==> n in Kept(listing)
  {
    var doomed := Doomed(listing);
    RotationMeaning(listing);
    remaining := files;
    for i := 0 to |doomed|
      invariant remaining == files - set d | d in doomed[..i]
    {
      assert forall d :: d in doomed[..i + 1] <==> d in doomed[..i] || d == doomed[i];
      remaining := remaining - {doomed[i]};
    }
    assert doomed[..|doomed|] == doomed;
    forall n | n in remaining && n in listing && IsBackupName(n) ensures n in Kept(listing) {
      assert n in multiset(BackupNames(listing));
      assert n in Doomed(listing) + Kept(listing);
    }
  }

  lemma {:induction false} BackupNamesSubset(listing: seq<string>)
    ensures multiset(BackupNames(listing)) <= multiset(listing)
  {
    if listing != [] {
      var init := listing[..|listing| - 1];
      BackupNamesSubset(init);
      assert listing == init + [listing[|listing| - 1]];
    }
  }

  lemma {:induction false} DistinctOnce(listing: seq<string>, x: string)
    requires Distinct(listing)
    ensures multiset(listing)[x] <= 1
  {
    if listing != [] {
      var init := listing[..|listing| - 1];
      assert Distinct(init);
      DistinctOnce(init, x);
      assert listing == init + [listing[|listing| - 1]];
      if x == listing[|listing| - 1] {
        assert x !in init;
      }
    }
  }

  /** In a directory listing, where every name occurs once, a backup that
      sorts after every other backup is never deleted. */
  lemma NewestSurvives(listing: seq<string>, newest: string)
    requires Distinct(listing)
    requires newest in listing && IsBackupName(newest)
    requires forall n :: n in listing && IsBackupName(n) ==> StrLe(n, newest)
    ensures newest in Kept(listing) && newest !in Doomed(listing)
  {
    RotationMeaning(listing);
    var backups := SortNames(BackupNames(listing));
    BackupNamesSubset(listing);
    DistinctOnce(listing, newest);
    assert newest in multiset(BackupNames(listing));
    assert newest in backups;
    if newest in Doomed(listing) {
      var k := backups[|backups| - 1];
      assert k in Kept(listing);
      assert k in multiset(BackupNames(listing));
      StrLeAntisymmetric(newest, k);
      assert false;
    } else {
      assert newest in Doomed(listing) + Kept(listing);
    }
  }

  /** The listing after the backup `name` is written. */
  function WithBackup(listing: seq<string>, name: string): (written: seq<string>)
    ensures forall n :: n in written <==> n in listing || n == name
    ensures Distinct(listing) ==> Distinct(written)
  {
    if name in listing then listing else listing + [name]
  }

  /** `_create_backup`: write the backup named after `stamp` (replacing one
      written in the same second), then rotate. At most ten backups remain,
      and when `stamp` is later than every existing backup, the new backup is
      among them. */
  method CreateBackup(files: set<string>, listing: seq<string>, stamp: string) returns (remaining: set<string>)
    requires Distinct(listing) && forall n :: n in files <==> n in listing
    ensures remaining == (files + {BackupName(stamp)}) - set d | d in Doomed(WithBackup(listing, BackupName(stamp)))
    ensures forall n :: n in remaining && IsBackupName(n) ==> n in Kept(WithBackup(listing, BackupName(stamp)))
    ensures |Kept(WithBackup(listing, BackupName(stamp)))| <= KeptBackups
    ensures (forall n :: n in listing && IsBackupName(n) ==> StrLe(n, BackupName(stamp)))
      ==> BackupName(stamp) in remaining
  {
    var name := BackupName(stamp);
    var written := WithBackup(listing, name);
    RotationMeaning(written);
    remaining := RemoveOldBackups(files + {name}, written);
    if forall n :: n in listing && IsBackupName(n) ==> StrLe(n, name) {
      forall n | n in written && IsBackupName(n) ensures StrLe(n, name) {
        if n == name {
          StrLeTotal(n, name);
        }
      }
      NewestSurvives(written, name);
    }
  }
}
