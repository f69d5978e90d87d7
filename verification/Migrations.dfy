/** Validating the files against the tracking table (core/db/migrate/migrate.go). */
module Migrations {
  import opened Wrappers
  import opened Sorting
  import opened MigrationFiles

  /** A row of schema_migrations. */
  datatype Applied = Applied(sequence: int, filename: string, checksum: string, appliedAt: int)

  type Tracking = map<int, Applied>

  /** `sequence` is the primary key, and the loaded map is keyed by it. */
  ghost predicate KeyedBySequence(applied: Tracking) {
    forall k :: k in applied ==> applied[k].sequence == k
  }

  // ---------- validation ----------

  datatype ValidationError =
    | AppliedHole(sequence: int)
    | FilenameMismatch(sequence: int)
    | ChecksumMismatch(sequence: int)
    | MissingFile(sequence: int)

  predicate Agrees(row: Applied, file: MigrationFile) {
    row.filename == file.filename && row.checksum == file.checksum
  }

  /** The keys are 1..m for some m. */
  ghost predicate NoHole(applied: Tracking) {
    forall k :: k in applied <==> 1 <= k <= |applied|
  }

  ghost predicate Accepts(files: seq<MigrationFile>, applied: Tracking) {
    && NoHole(applied)
    && RowsAgree(files, applied)
    && (forall k :: k in applied ==> HasSequence(files, k))
  }

  /** The files with no row yet, in order. */
  function Pending(files: seq<MigrationFile>, applied: Tracking): seq<MigrationFile> {
    if files == [] then []
    else
      var last := files[|files| - 1];
      Pending(files[..|files| - 1], applied) + (if last.sequence in applied then [] else [last])
  }

  predicate RowLess(a: Applied, b: Applied) {
    if a.sequence != b.sequence then a.sequence < b.sequence else StringLess(a.filename, b.filename)
  }

  lemma RowLessOrders()
    ensures StrictWeakOrder(RowLess)
  {
    forall a, b, c
      ensures !RowLess(a, a)
      ensures RowLess(a, b) && RowLess(b, c) ==> RowLess(a, c)
      ensures !RowLess(a, b) && !RowLess(b, c) ==> !RowLess(a, c)
    {
      StringLessOrders(a.filename, b.filename, c.filename);
    }
  }

  /** The rows of the table, each once, in whatever order the map is walked. */
  ghost predicate Rows(applied: Tracking, rows: seq<Applied>) {
    && |rows| == |applied|
    && (forall i :: 0 <= i < |rows| ==> rows[i].sequence in applied && rows[i] == applied[rows[i].sequence])
    && (forall i, j :: 0 <= i < j < |rows| ==> rows[i].sequence != rows[j].sequence)
    && (forall k :: k in applied ==> applied[k] in rows)
  }

  method CollectRows(applied: Tracking) returns (rows: seq<Applied>)
    requires KeyedBySequence(applied)
    ensures Rows(applied, rows)
  {
    rows := [];
    var rest := applied.Keys;
    while rest != {}
      invariant rest <= applied.Keys && |rows| + |rest| == |applied.Keys|
      invariant forall i :: 0 <= i < |rows| ==>
        rows[i].sequence in applied && rows[i].sequence !in rest && rows[i] == applied[rows[i].sequence]
      invariant forall i, j :: 0 <= i < j < |rows| ==> rows[i].sequence != rows[j].sequence
      invariant forall k :: k in applied && k !in rest ==> applied[k] in rows
    {
      ghost var some := Member(rest);
      var k :| k in rest;
      rows := rows + [applied[k]];
      rest := rest - {k};
    }
    assert |applied.Keys| == |applied|;
  }

  lemma SortedRows(applied: Tracking, rows: seq<Applied>, sorted: seq<Applied>)
    requires KeyedBySequence(applied) && Rows(applied, rows)
    requires multiset(sorted) == multiset(rows) && Ordered(sorted, RowLess)
    ensures |sorted| == |applied|
    ensures forall i :: 0 <= i < |sorted| ==> sorted[i].sequence in applied && sorted[i] == applied[sorted[i].sequence]
    ensures forall k :: k in applied ==> applied[k] in sorted
    ensures forall i, j :: 0 <= i < j < |sorted| ==> sorted[i].sequence < sorted[j].sequence
  {
    SameMembers(rows, sorted);
    forall i | 0 <= i < |sorted|
      ensures sorted[i].sequence in applied && sorted[i] == applied[sorted[i].sequence]
    {
      assert sorted[i] in rows;
    }
    forall i, j | 0 <= i < j < |sorted|
      ensures sorted[i].sequence < sorted[j].sequence
    {
      assert !RowLess(sorted[j], sorted[i]);
      if sorted[i].sequence == sorted[j].sequence {
        assert sorted[i] == sorted[j];
        TwoPlacesCount(sorted, i, j);
        var p, q := CountHasTwoPlaces(rows, sorted[i]);
      }
    }
  }

  /** `validateAppliedMigrations`: accepts exactly the tables with keys 1..m, and names the
      first missing sequence otherwise. */
  method ValidateApplied(applied: Tracking) returns (hole: Option<int>)
    requires KeyedBySequence(applied)
    ensures hole.None? <==> NoHole(applied)
    ensures hole.Some? ==> FirstGap(applied, hole.value)
  {
    var rows := CollectRows(applied);
    RowLessOrders();
    var sorted := SortSlice(rows, RowLess);
    SortedRows(applied, rows, sorted);
    for index := 0 to |sorted|
      invariant forall i :: 0 <= i < index ==> sorted[i].sequence == i + 1
    {
      if sorted[index].sequence != index + 1 {
        FirstMissing(applied, sorted, index);
        return Some(index + 1);
      }
    }
    forall k
      ensures k in applied <==> 1 <= k <= |applied|
    {
      if k in applied {
        assert applied[k] in sorted;
      }
      if 1 <= k <= |sorted| {
        assert sorted[k - 1].sequence == k;
      }
    }
    return None;
  }

  /** Everything in 1..k-1 is there; `k` is not, unless a key below 1 has displaced it. */
  ghost predicate FirstGap(applied: Tracking, k: int) {
    && k >= 1
    && (forall i :: 1 <= i < k ==> i in applied)
    && (k !in applied || exists i :: i < 1 && i in applied)
  }

  lemma FirstMissing(applied: Tracking, sorted: seq<Applied>, index: nat)
    requires KeyedBySequence(applied) && |sorted| == |applied| && index < |sorted|
    requires forall i :: 0 <= i < |sorted| ==> sorted[i].sequence in applied
    requires forall k :: k in applied ==> applied[k] in sorted
    requires forall i, j :: 0 <= i < j < |sorted| ==> sorted[i].sequence < sorted[j].sequence
    requires forall i :: 0 <= i < index ==> sorted[i].sequence == i + 1
    requires sorted[index].sequence != index + 1
    ensures !NoHole(applied) && FirstGap(applied, index + 1)
  {
    forall k | 1 <= k < index + 1
      ensures k in applied
    {
      assert sorted[k - 1].sequence == k;
    }
    assert index > 0 ==> sorted[index - 1].sequence < sorted[index].sequence;
    if sorted[index].sequence < 1 {
      assert sorted[index].sequence in applied;
    } else {
      assert forall i :: 0 <= i < |sorted| ==> sorted[i].sequence != index + 1;
    }
  }

  /** The loop over the files: each with a row must agree with it; the others are pending. */
  method PlanFiles(files: seq<MigrationFile>, applied: Tracking)
    returns (result: Result<(seq<MigrationFile>, map<int, MigrationFile>), ValidationError>)
    ensures result.Ok? <==> RowsAgree(files, applied)
    ensures result.Ok? <==> forall f :: f in files && f.sequence in applied ==>
      applied[f.sequence].filename == f.filename && applied[f.sequence].checksum == f.checksum
    ensures result.Ok? ==>
      && result.value.0 == Pending(files, applied)
      && forall k :: k in result.value.1 <==> HasSequence(files, k)
    ensures result.Err? ==> FirstMismatch(files, applied, result.error)
  {
    var pending: seq<MigrationFile> := [];
    var planned: map<int, MigrationFile> := map[];
    for i := 0 to |files|
      invariant RowsAgree(files[..i], applied)
      invariant pending == Pending(files[..i], applied)
      invariant forall k :: k in planned <==> HasSequence(files[..i], k)
    {
      var file := files[i];
      HasSequenceAppend(files[..i], file);
      assert files[..i + 1] == files[..i] + [file];
      assert files[..i + 1][..i] == files[..i];
      if file.sequence in applied {
        assert file in files;
        if applied[file.sequence].filename != file.filename {
          assert MismatchAt(files, applied, i, FilenameMismatch(file.sequence));
          return Err(FilenameMismatch(file.sequence));
        }
        if applied[file.sequence].checksum != file.checksum {
          assert MismatchAt(files, applied, i, ChecksumMismatch(file.sequence));
          return Err(ChecksumMismatch(file.sequence));
        }
        planned := planned[file.sequence := file];
        continue;
      }
      pending := pending + [file];
      planned := planned[file.sequence := file];
    }
    assert files[..|files|] == files;
    return Ok((pending, planned));
  }

  ghost predicate RowsAgree(files: seq<MigrationFile>, applied: Tracking) {
    forall f :: f in files && f.sequence in applied ==> Agrees(applied[f.sequence], f)
  }

  /** What each error stands for, in the order of the checks. */
  ghost predicate Justified(files: seq<MigrationFile>, applied: Tracking, error: ValidationError) {
    match error
    case AppliedHole(k) => !NoHole(applied) && FirstGap(applied, k)
    case FilenameMismatch(_) => NoHole(applied) && FirstMismatch(files, applied, error)
    case ChecksumMismatch(_) => NoHole(applied) && FirstMismatch(files, applied, error)
    case MissingFile(k) => NoHole(applied) && RowsAgree(files, applied) && k in applied && !HasSequence(files, k)
  }

  /** File `i` differs from its row as the error says: in the name, or in the checksum alone. */
  ghost predicate MismatchAt(files: seq<MigrationFile>, applied: Tracking, i: nat, error: ValidationError)
    requires i < |files|
  {
    && files[i].sequence in applied && error.sequence == files[i].sequence
    && match error
       case FilenameMismatch(k) => files[i].filename != applied[k].filename
       case ChecksumMismatch(k) => files[i].filename == applied[k].filename && files[i].checksum != applied[k].checksum
       case _ => false
  }

  ghost predicate FirstMismatch(files: seq<MigrationFile>, applied: Tracking, error: ValidationError) {
    exists i: nat :: i < |files| && RowsAgree(files[..i], applied) && MismatchAt(files, applied, i, error)
  }

  lemma HasSequenceAppend(files: seq<MigrationFile>, file: MigrationFile)
    ensures forall k :: HasSequence(files + [file], k) <==> HasSequence(files, k) || k == file.sequence
  {
    assert file in files + [file];
  }

  /** `validateMigrations`: what it accepts, and what is then pending.  The last loop walks
      the map in any order. */
  method ValidateMigrations(files: seq<MigrationFile>, applied: Tracking)
    returns (result: Result<seq<MigrationFile>, ValidationError>)
    requires KeyedBySequence(applied)
    ensures result.Ok? <==> Accepts(files, applied)
    ensures result.Ok? <==>
      && (forall k :: k in applied <==> 1 <= k <= |applied|)
      && (forall f :: f in files && f.sequence in applied ==>
            applied[f.sequence].filename == f.filename && applied[f.sequence].checksum == f.checksum)
      && (forall k :: k in applied ==> exists f :: f in files && f.sequence == k)
    ensures result.Ok? ==> result.value == Pending(files, applied)
    ensures result.Err? ==> Justified(files, applied, result.error)
  {
    var hole := ValidateApplied(applied);
    if hole.Some? {
      return Err(AppliedHole(hole.value));
    }
    var plan := PlanFiles(files, applied);
    if plan.Err? {
      return Err(plan.error);
    }
    var rest := applied.Keys;
    while rest != {}
      invariant rest <= applied.Keys
      invariant forall k :: k in applied && k !in rest ==> HasSequence(files, k)
    {
      ghost var some := Member(rest);
      var k :| k in rest;
      if k !in plan.value.1 {
        return Err(MissingFile(k));
      }
      rest := rest - {k};
    }
    return Ok(plan.value.0);
  }

  // ---------- edited files ----------

  ghost predicate Injective(hash: string -> string) {
    forall x, y :: hash(x) == hash(y) ==> x == y
  }

  /** The listings differ in the contents of entry `k`, and in nothing else. */
  predicate Edited(before: seq<Entry>, after: seq<Entry>, k: nat) {
    && k < |before| == |after|
    && (forall i :: 0 <= i < |before| && i != k ==> after[i] == before[i])
    && after[k].name == before[k].name && after[k].isDir == before[k].isDir
    && before[k].contents != after[k].contents
  }

  /** A file read after the edit is the edited one, or was read before it. */
  lemma EditKeepsOthers(
    before: seq<Entry>, after: seq<Entry>, hash: string -> string, k: nat,
    files: seq<MigrationFile>, edited: seq<MigrationFile>, g: MigrationFile)
    requires Edited(before, after, k) && ReadFrom(files, before, hash) && ReadFrom(edited, after, hash)
    requires g in edited
    ensures FileFrom(g, after[k], hash) || g in files
  {
    assert FromSome(g, after, hash);
    var i :| 0 <= i < |after| && FileFrom(g, after[i], hash);
    if i != k {
      var f :| f in files && FileFrom(f, before[i], hash);
      SameFile(f, g, before[i], hash);
    }
  }

  /** The two files of the edited entry. */
  lemma EditedPair(
    before: seq<Entry>, after: seq<Entry>, hash: string -> string, k: nat,
    files: seq<MigrationFile>, edited: seq<MigrationFile>) returns (f: MigrationFile, g: MigrationFile)
    requires Edited(before, after, k) && Visible(before[k]) && Injective(hash)
    requires ReadFrom(files, before, hash) && ReadFrom(edited, after, hash)
    ensures f in files && FileFrom(f, before[k], hash)
    ensures g in edited && FileFrom(g, after[k], hash)
    ensures g.sequence == f.sequence && g.filename == f.filename && g.checksum != f.checksum
  {
    f :| f in files && FileFrom(f, before[k], hash);
    g :| g in edited && FileFrom(g, after[k], hash);
    assert f.sql != g.sql && hash(f.sql) != hash(g.sql);
  }

  /** No file but the edited one can disagree with its row. */
  lemma OthersAgree(
    before: seq<Entry>, after: seq<Entry>, hash: string -> string, k: nat,
    files: seq<MigrationFile>, edited: seq<MigrationFile>, applied: Tracking, g: MigrationFile, h: MigrationFile)
    requires Edited(before, after, k) && ReadFrom(files, before, hash) && ReadFrom(edited, after, hash)
    requires RowsAgree(files, applied) && FileFrom(g, after[k], hash)
    requires h in edited && h.sequence in applied
    ensures h == g || Agrees(applied[h.sequence], h)
  {
    EditKeepsOthers(before, after, hash, k, files, edited, h);
    if FileFrom(h, after[k], hash) {
      SameFile(g, h, after[k], hash);
    }
  }

  lemma EditKeepsSequences(
    before: seq<Entry>, after: seq<Entry>, hash: string -> string, k: nat,
    files: seq<MigrationFile>, edited: seq<MigrationFile>, sequence: int)
    requires Edited(before, after, k) && ReadFrom(files, before, hash) && ReadFrom(edited, after, hash)
    requires HasSequence(files, sequence)
    ensures HasSequence(edited, sequence)
  {
    var f :| f in files && f.sequence == sequence;
    assert FromSome(f, before, hash);
    var i :| 0 <= i < |before| && FileFrom(f, before[i], hash);
    assert after[i].name == before[i].name && Visible(after[i]);
    var g :| g in edited && FileFrom(g, after[i], hash);
    assert g.sequence == sequence;
  }

  /** When the contents of a migration change after its directory was accepted, and no two
      contents have one checksum, the directory stays accepted exactly as long as the migration
      has not been applied; once it has, the one error there can be is its checksum. */
  lemma EditIsCaught(
    before: seq<Entry>, after: seq<Entry>, hash: string -> string, k: nat,
    files: seq<MigrationFile>, edited: seq<MigrationFile>, applied: Tracking)
    requires Injective(hash) && Edited(before, after, k) && Visible(before[k])
    requires IsRead(files, before, hash) && IsRead(edited, after, hash) && Accepts(files, applied)
    ensures Parse(before[k].name).Some?
    ensures var sequence := Parse(before[k].name).value;
      && (Accepts(edited, applied) <==> sequence !in applied)
      && (sequence in applied ==>
            forall error :: Justified(edited, applied, error) ==> error == ChecksumMismatch(sequence))
  {
    var f, g := EditedPair(before, after, hash, k, files, edited);
    forall h | h in edited && h.sequence in applied
      ensures h == g || Agrees(applied[h.sequence], h)
    {
      OthersAgree(before, after, hash, k, files, edited, applied, g, h);
    }
    forall j | j in applied
      ensures HasSequence(edited, j)
    {
      EditKeepsSequences(before, after, hash, k, files, edited, j);
    }
    if g.sequence in applied {
      assert Agrees(applied[f.sequence], f);
      forall error | Justified(edited, applied, error)
        ensures error == ChecksumMismatch(g.sequence)
      {
        OnlyChecksum(edited, applied, g, error);
      }
    }
  }

  lemma OnlyChecksum(files: seq<MigrationFile>, applied: Tracking, g: MigrationFile, error: ValidationError)
    requires NoHole(applied) && g in files && g.sequence in applied
    requires applied[g.sequence].filename == g.filename && applied[g.sequence].checksum != g.checksum
    requires forall h :: h in files && h.sequence in applied ==> h == g || Agrees(applied[h.sequence], h)
    requires Justified(files, applied, error)
    ensures error == ChecksumMismatch(g.sequence)
  {
    assert !RowsAgree(files, applied);
    var i: nat :| i < |files| && RowsAgree(files[..i], applied) && MismatchAt(files, applied, i, error);
    assert files[i] == g || Agrees(applied[files[i].sequence], files[i]);
  }

  // ---------- what is accepted ----------

  /** Some number `m` of leading files has rows that agree with them, and there are no other rows. */
  ghost predicate AppliedPrefix(files: seq<MigrationFile>, applied: Tracking, m: nat) {
    && m <= |files|
    && (forall k :: k in applied <==> 1 <= k <= m)
    && (forall k :: 1 <= k <= m ==> Agrees(applied[k], files[k - 1]))
  }

  lemma {:induction false} KeyCount(applied: Tracking, m: nat)
    requires forall k :: k in applied <==> 1 <= k <= m
    ensures |applied| == m
    decreases m
  {
    if m == 0 {
      if applied != map[] {
        var k := Member(applied.Keys);
      }
    } else {
      var less := applied - {m};
      KeyCount(less, m - 1);
      assert applied.Keys == less.Keys + {m};
      assert |applied.Keys| == |less.Keys| + 1;
    }
  }

  lemma {:induction false} PendingAbove(files: seq<MigrationFile>, applied: Tracking, m: nat, n: nat)
    requires Numbered(files) && m <= n <= |files|
    requires forall k :: k in applied <==> 1 <= k <= m
    ensures Pending(files[..n], applied) == files[m..n]
    decreases n
  {
    if n == 0 {
    } else {
      assert files[..n][..n - 1] == files[..n - 1];
      if n == m {
        PendingNone(files, applied, n);
      } else {
        PendingAbove(files, applied, m, n - 1);
        assert files[m..n] == files[m..n - 1] + [files[n - 1]];
      }
    }
  }

  lemma {:induction false} PendingNone(files: seq<MigrationFile>, applied: Tracking, n: nat)
    requires Numbered(files) && n <= |files|
    requires forall k :: 1 <= k <= n ==> k in applied
    ensures Pending(files[..n], applied) == []
    decreases n
  {
    if n > 0 {
      assert files[..n][..n - 1] == files[..n - 1];
      PendingNone(files, applied, n - 1);
    }
  }

  /** The plan after a prefix is the rest of the files. */
  lemma PlanOfPrefix(files: seq<MigrationFile>, applied: Tracking, m: nat)
    requires Numbered(files) && AppliedPrefix(files, applied, m)
    ensures m == |applied| && Pending(files, applied) == files[m..]
  {
    assert files[..|files|] == files;
    KeyCount(applied, m);
    PendingAbove(files, applied, m, |files|);
  }

  lemma PrefixIsAccepted(files: seq<MigrationFile>, applied: Tracking, m: nat)
    requires Numbered(files) && AppliedPrefix(files, applied, m)
    ensures m == |applied| && Pending(files, applied) == files[m..] && Accepts(files, applied)
  {
    PlanOfPrefix(files, applied, m);
    PrefixHasFiles(files, applied, m);
  }

  lemma PrefixHasFiles(files: seq<MigrationFile>, applied: Tracking, m: nat)
    requires Numbered(files) && AppliedPrefix(files, applied, m)
    ensures forall k :: k in applied ==> HasSequence(files, k)
  {
    forall k | k in applied
      ensures HasSequence(files, k)
    {
      assert files[k - 1] in files;
    }
  }

  lemma AcceptedIsPrefix(files: seq<MigrationFile>, applied: Tracking)
    requires Numbered(files) && Accepts(files, applied)
    ensures AppliedPrefix(files, applied, |applied|)
  {
    var m := |applied|;
    if m > 0 {
      assert HasSequence(files, m);
    }
    forall k | 1 <= k <= m
      ensures Agrees(applied[k], files[k - 1])
    {
      assert files[k - 1] in files;
    }
  }

  /** For numbered files, validation accepts exactly when the table is a matching prefix of
      them, and the plan is then exactly the rest. */
  lemma ValidationIsExact(files: seq<MigrationFile>, applied: Tracking)
    requires Numbered(files) && KeyedBySequence(applied)
    ensures Accepts(files, applied) <==> exists m: nat :: AppliedPrefix(files, applied, m)
    ensures forall m: nat :: AppliedPrefix(files, applied, m) ==>
      m == |applied| && Pending(files, applied) == files[m..]
  {
    forall m: nat | AppliedPrefix(files, applied, m)
      ensures m == |applied| && Pending(files, applied) == files[m..] && Accepts(files, applied)
    {
      PrefixIsAccepted(files, applied, m);
    }
    if Accepts(files, applied) {
      AcceptedIsPrefix(files, applied);
    }
  }
}
