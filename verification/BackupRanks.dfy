/** Which backups are in excess, and what removing files does to that (app/jobs/backup/service.go). */
module BackupRanks {
  import opened BackupFiles
  import opened Wrappers

  // ---------- ranks ----------

  lemma SubsetCount<T>(a: set<T>, b: set<T>)
    requires a <= b
    ensures |a| <= |b|
  {
    assert b == a + (b - a);
  }

  lemma {:induction false} Oldest(names: set<string>, suffix: string) returns (oldest: string)
    requires names != {}
    ensures oldest in names && forall name :: name in names ==> Day(oldest, suffix) <= Day(name, suffix)
    decreases names
  {
    var first := Member(names);
    var rest := names - {first};
    oldest := first;
    if rest != {} {
      var other := Oldest(rest, suffix);
      if Day(other, suffix) < Day(first, suffix) {
        oldest := other;
      }
    }
    forall name | name in names
      ensures Day(oldest, suffix) <= Day(name, suffix)
    {
      assert name == first || name in rest;
    }
  }

  lemma BelowOldest(entries: Entries, name: string, suffix: string, oldest: string)
    requires KnownSuffix(suffix) && oldest in Newer(entries, name, suffix)
    requires forall other :: other in Newer(entries, name, suffix) ==> Day(oldest, suffix) <= Day(other, suffix)
    ensures Newer(entries, oldest, suffix) == Newer(entries, name, suffix) - {oldest}
  {
    forall other
      ensures other in Newer(entries, oldest, suffix) <==> other in Newer(entries, name, suffix) - {oldest}
    {
      if other in Newer(entries, name, suffix) && Day(other, suffix) == Day(oldest, suffix) {
        SameDaySameName(other, oldest, suffix);
      }
    }
  }

  /** The newer backups that are themselves among the `keep` newest. */
  function NewerKept(entries: Entries, name: string, suffix: string, keep: nat): set<string> {
    set other | other in Newer(entries, name, suffix) && |Newer(entries, other, suffix)| < keep
  }

  /** Behind a backup in excess stand exactly `keep` that are not. */
  lemma {:induction false} KeepStandsBehind(entries: Entries, name: string, suffix: string, keep: nat)
    requires KnownSuffix(suffix) && |Newer(entries, name, suffix)| >= keep
    ensures |NewerKept(entries, name, suffix, keep)| == keep
    decreases |Newer(entries, name, suffix)|
  {
    var newer, kept := Newer(entries, name, suffix), NewerKept(entries, name, suffix, keep);
    if newer == {} {
      assert kept == {};
    } else {
      var oldest := Oldest(newer, suffix);
      BelowOldest(entries, name, suffix, oldest);
      if |newer| > keep {
        KeepStandsBehind(entries, oldest, suffix, keep);
        assert kept == NewerKept(entries, oldest, suffix, keep);
      } else {
        forall other | other in newer
          ensures |Newer(entries, other, suffix)| < keep
        {
          SubsetCount(Newer(entries, other, suffix), newer - {other});
        }
        assert kept == newer;
      }
    }
  }

  // ---------- removing files ----------

  /** Removing files that are not backups of a suffix does not touch its ranks. */
  lemma OthersKeepExcess(entries: Entries, gone: set<string>, suffix: string, keep: nat)
    requires forall other :: other in gone ==> !IsBackup(entries, other, suffix)
    ensures Backups(entries - gone, suffix) == Backups(entries, suffix)
    ensures Excess(entries - gone, suffix, keep) == Excess(entries, suffix, keep)
  {
    forall name
      ensures IsBackup(entries - gone, name, suffix) <==> IsBackup(entries, name, suffix)
      ensures name in Excess(entries - gone, suffix, keep) <==> name in Excess(entries, suffix, keep)
    {
      assert Newer(entries - gone, name, suffix) == Newer(entries, name, suffix);
    }
  }

  /** Removing some of the excess leaves the rest of it in excess, and nothing else. */
  lemma PartOfExcess(entries: Entries, gone: set<string>, suffix: string, keep: nat)
    requires KnownSuffix(suffix) && gone <= Excess(entries, suffix, keep)
    ensures Excess(entries - gone, suffix, keep) == Excess(entries, suffix, keep) - gone
  {
    var after := entries - gone;
    forall name
      ensures name in Excess(after, suffix, keep) <==> name in Excess(entries, suffix, keep) - gone
    {
      if name in Excess(entries, suffix, keep) - gone {
        KeepStandsBehind(entries, name, suffix, keep);
        SubsetCount(NewerKept(entries, name, suffix, keep), Newer(after, name, suffix));
      } else if IsBackup(after, name, suffix) {
        SubsetCount(Newer(after, name, suffix), Newer(entries, name, suffix));
      }
    }
  }

  lemma FewHaveNoExcess(entries: Entries, suffix: string, keep: nat)
    requires |Backups(entries, suffix)| <= keep
    ensures Excess(entries, suffix, keep) == {}
  {
    forall name | name in Backups(entries, suffix)
      ensures |Newer(entries, name, suffix)| < keep
    {
      SubsetCount(Newer(entries, name, suffix), Backups(entries, suffix) - {name});
    }
  }

  lemma AllButOldest(entries: Entries, suffix: string) returns (oldest: string)
    requires KnownSuffix(suffix) && Backups(entries, suffix) != {}
    ensures oldest in Backups(entries, suffix)
    ensures Newer(entries, oldest, suffix) == Backups(entries, suffix) - {oldest}
  {
    oldest := Oldest(Backups(entries, suffix), suffix);
    forall other
      ensures other in Newer(entries, oldest, suffix) <==> other in Backups(entries, suffix) - {oldest}
    {
      if other in Backups(entries, suffix) && Day(other, suffix) == Day(oldest, suffix) {
        SameDaySameName(other, oldest, suffix);
      }
    }
  }

  /** As many backups stay as the cap allows. */
  lemma RetainedCount(entries: Entries, suffix: string, keep: nat)
    requires KnownSuffix(suffix)
    ensures |Backups(entries, suffix) - Excess(entries, suffix, keep)|
      == if |Backups(entries, suffix)| <= keep then |Backups(entries, suffix)| else keep
  {
    var all, excess := Backups(entries, suffix), Excess(entries, suffix, keep);
    if |all| <= keep {
      FewHaveNoExcess(entries, suffix, keep);
      assert all - excess == all;
    } else {
      var oldest := AllButOldest(entries, suffix);
      KeepStandsBehind(entries, oldest, suffix, keep);
      assert all - excess == NewerKept(entries, oldest, suffix, keep);
    }
  }

  /** A backup older than a kept one may go; one newer than a kept one stays. */
  lemma NewerIsKept(entries: Entries, suffix: string, keep: nat, kept: string, gone: string)
    requires IsBackup(entries, kept, suffix) && kept !in Excess(entries, suffix, keep)
    requires gone in Excess(entries, suffix, keep) && KnownSuffix(suffix)
    ensures Day(gone, suffix) < Day(kept, suffix)
  {
    if Day(gone, suffix) >= Day(kept, suffix) {
      SubsetCount(Newer(entries, gone, suffix), Newer(entries, kept, suffix));
    }
  }
}
