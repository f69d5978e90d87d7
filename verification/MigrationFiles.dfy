/** Discovery of migration files: names, contents, order (core/db/migrate/migrate.go). */
module MigrationFiles {
  import opened Digits
  import opened Sorting
  import opened Wrappers

  // ---------- names ----------

  /** Go's `path.Base`. */
  function PathBase(path: string): string {
    if path == "" then "."
    else
      var trimmed := TrimSlashes(path);
      if trimmed == "" then "/" else AfterLastSlash(trimmed)
  }

  function TrimSlashes(path: string): (r: string) {
    if path != "" && path[|path| - 1] == '/' then TrimSlashes(path[..|path| - 1]) else path
  }

  function AfterLastSlash(path: string): (r: string) {
    if path == "" || path[|path| - 1] == '/' then ""
    else AfterLastSlash(path[..|path| - 1]) + [path[|path| - 1]]
  }

  predicate HasSuffix(s: string, suffix: string) {
    |s| >= |suffix| && s[|s| - |suffix|..] == suffix
  }

  /** The text before and after the first `sep`, if there is one. */
  function Cut(s: string, sep: char): Option<(string, string)> {
    if s == "" then None
    else if s[0] == sep then Some(("", s[1..]))
    else
      match Cut(s[1..], sep)
      case None => None
      case Some((before, after)) => Some(([s[0]] + before, after))
  }

  /** Go's `strconv.Atoi` on a text short enough not to overflow: an optional sign, then
      at least one digit. */
  function Atoi(s: string): Option<int> {
    var signed := s != "" && (s[0] == '+' || s[0] == '-');
    var digits := if signed then s[1..] else s;
    if digits == "" then None
    else
      match DigitsValue(digits)
      case None => None
      case Some(n) => var value: int := n; Some(if signed && s[0] == '-' then -value else value)
  }

  /** `parseMigrationFilename`; `None` is its one error. */
  function Parse(filename: string): Option<int> {
    if PathBase(filename) != filename then None
    else if !HasSuffix(filename, ".sql") then None
    else
      match Cut(filename[..|filename| - 4], '_')
      case None => None
      case Some((prefix, slug)) =>
        if slug == "" || |prefix| != 4 then None
        else
          match Atoi(prefix)
          case None => None
          case Some(sequence) => if sequence < 1 then None else Some(sequence)
  }

  lemma {:induction false} CutSplits(s: string, sep: char)
    ensures match Cut(s, sep)
            case None => sep !in s
            case Some((before, after)) => s == before + [sep] + after && sep !in before
  {
    if s != "" && s[0] != sep {
      CutSplits(s[1..], sep);
      assert s == [s[0]] + s[1..];
    }
  }

  lemma {:induction false} CutFinds(before: string, sep: char, after: string)
    requires sep !in before
    ensures Cut(before + [sep] + after, sep) == Some((before, after))
  {
    var s := before + [sep] + after;
    if before == "" {
      assert s[1..] == after;
    } else {
      CutFinds(before[1..], sep, after);
      assert s[1..] == before[1..] + [sep] + after;
      assert [s[0]] + before[1..] == before;
    }
  }

  lemma {:induction false} TrimSlashesKeeps(path: string)
    requires '/' !in path
    ensures TrimSlashes(path) == path && AfterLastSlash(path) == path
    decreases |path|
  {
    if path != "" {
      TrimSlashesKeeps(path[..|path| - 1]);
      assert path == path[..|path| - 1] + [path[|path| - 1]];
    }
  }

  lemma {:induction false} AfterLastSlashHasNone(path: string)
    ensures '/' !in AfterLastSlash(path)
    decreases |path|
  {
    if path != "" && path[|path| - 1] != '/' {
      AfterLastSlashHasNone(path[..|path| - 1]);
    }
  }

  /** A name is its own base exactly when it holds no slash, or is the root. */
  lemma BaseIsSelf(path: string)
    ensures PathBase(path) == path <==> path == "/" || (path != "" && '/' !in path)
  {
    if path != "" {
      if '/' !in path {
        TrimSlashesKeeps(path);
      } else {
        AfterLastSlashHasNone(TrimSlashes(path));
        if path == "/" {
          assert TrimSlashes(path) == TrimSlashes("");
        }
      }
    }
  }

  ghost predicate WellNamed(filename: string, prefix: string, slug: string, sequence: int) {
    && filename == prefix + "_" + slug + ".sql"
    && '/' !in filename
    && |prefix| == 4 && '_' !in prefix
    && slug != ""
    && sequence >= 1 && Atoi(prefix) == Some(sequence)
  }

  /** Exactly the names `NNNN_slug.sql` parse, where `NNNN` is whatever four characters
      `Atoi` takes for a positive number. */
  lemma ParseIsExact(filename: string, sequence: int)
    ensures Parse(filename) == Some(sequence) <==>
      exists prefix, slug :: WellNamed(filename, prefix, slug, sequence)
  {
    BaseIsSelf(filename);
    if Parse(filename) == Some(sequence) {
      var name := filename[..|filename| - 4];
      CutSplits(name, '_');
      var (prefix, slug) := Cut(name, '_').value;
      assert filename == name + ".sql";
      assert WellNamed(filename, prefix, slug, sequence);
    }
    if prefix, slug :| WellNamed(filename, prefix, slug, sequence) {
      CutFinds(prefix, '_', slug);
      assert filename[..|filename| - 4] == prefix + ['_'] + slug;
      assert filename[|filename| - 4..] == ".sql";
    }
  }

  /** Go's `%04d` for the sequences that fit. */
  function Pad4(k: int): string
    requires 0 <= k <= 9999
  {
    Padded(k, 4)
  }

  lemma Pad4Value(k: int)
    requires 0 <= k <= 9999
    ensures Atoi(Pad4(k)) == Some(k) && AllDigits(Pad4(k))
  {
    assert PowerOfTen(2) == 100 && PowerOfTen(4) == 10000;
    PaddedValue(k, 4);
    ValueNeedsDigits(Pad4(k));
    assert IsDigit(Pad4(k)[0]);
  }

  /** A name of the right form parses as its prefix does. */
  lemma NamedByPrefix(prefix: string, slug: string)
    requires |prefix| == 4 && '_' !in prefix && '/' !in prefix && slug != "" && '/' !in slug
    ensures Parse(prefix + "_" + slug + ".sql") ==
      match Atoi(prefix)
      case None => None
      case Some(sequence) => if sequence < 1 then None else Some(sequence)
  {
    var filename := prefix + "_" + slug + ".sql";
    BaseIsSelf(filename);
    CutFinds(prefix, '_', slug);
    assert filename[..|filename| - 4] == prefix + ['_'] + slug;
    assert filename[|filename| - 4..] == ".sql";
  }

  /** Every zero-padded name parses back to its number. */
  lemma PaddedNameParses(k: int, slug: string)
    requires 1 <= k <= 9999 && slug != "" && '/' !in slug
    ensures Parse(Pad4(k) + "_" + slug + ".sql") == Some(k)
  {
    Pad4Value(k);
    NamedByPrefix(Pad4(k), slug);
  }

  /** Four decimal digits are read with the most significant first. */
  lemma {:induction false} DigitNameParses(a: nat, b: nat, c: nat, d: nat, k: int, slug: string)
    requires a <= 9 && b <= 9 && c <= 9 && d <= 9 && k == 1000 * a + 100 * b + 10 * c + d
    requires k >= 1 && slug != "" && '/' !in slug
    ensures Parse([DigitChar(a), DigitChar(b), DigitChar(c), DigitChar(d)] + "_" + slug + ".sql") == Some(k)
  {
    FourDigits(a, b, c, d, k);
    PaddedNameParses(k, slug);
  }

  lemma SignedValue(sign: char, digits: string)
    requires (sign == '+' || sign == '-') && digits != "" && AllDigits(digits)
    ensures DigitsValue(digits).Some?
    ensures var n: int := DigitsValue(digits).value; Atoi([sign] + digits) == Some(if sign == '-' then -n else n)
  {
    ValueNeedsDigits(digits);
    assert ([sign] + digits)[1..] == digits;
  }

  predicate IsNumeral(s: string, sign: string, digits: string) {
    && s == sign + digits && (sign == "" || sign == "+" || sign == "-")
    && digits != "" && forall i :: 0 <= i < |digits| ==> '0' <= digits[i] <= '9'
  }

  lemma {:induction false} NumeralIsRead(s: string, sign: string, digits: string)
    requires IsNumeral(s, sign, digits)
    ensures Atoi(s).Some?
  {
    ValueNeedsDigits(digits);
    if sign == "" {
      assert s == digits && IsDigit(s[0]);
    } else {
      SignedValue(sign[0], digits);
      assert s == [sign[0]] + digits;
    }
  }

  /** `Atoi` takes exactly an optional sign and at least one decimal digit. */
  lemma {:induction false} AtoiIsExact(s: string)
    ensures Atoi(s).Some? <==> exists sign, digits :: IsNumeral(s, sign, digits)
  {
    if Atoi(s).Some? {
      var signed := s[0] == '+' || s[0] == '-';
      var sign, digits := if signed then s[..1] else "", if signed then s[1..] else s;
      ValueNeedsDigits(digits);
      assert IsNumeral(s, sign, digits);
    }
    if sign, digits :| IsNumeral(s, sign, digits) {
      NumeralIsRead(s, sign, digits);
    }
  }

  /** Four decimal digits are not required: three after a plus sign parse as well, and after
      a minus sign they never do. */
  lemma SignedNameParses(digits: string, slug: string)
    requires |digits| == 3 && AllDigits(digits) && slug != "" && '/' !in slug
    ensures DigitsValue(digits).Some?
    ensures DigitsValue(digits).value >= 1 ==> Parse("+" + digits + "_" + slug + ".sql") == DigitsValue(digits)
    ensures Parse("-" + digits + "_" + slug + ".sql") == None
  {
    SignedValue('+', digits);
    SignedValue('-', digits);
    NamedByPrefix("+" + digits, slug);
    NamedByPrefix("-" + digits, slug);
  }

  // ---------- files ----------

  datatype MigrationFile = MigrationFile(sequence: int, filename: string, checksum: string, sql: string)

  /** One directory entry; `contents` is `None` when reading the file fails. */
  datatype Entry = Entry(name: string, isDir: bool, contents: Option<string>)

  datatype DiscoveryError =
    | Subdirectory(name: string)
    | BadFilename(name: string)
    | Unreadable(name: string)
    | Duplicate(sequence: int)
    | Hole(sequence: int)

  predicate Hidden(entry: Entry) { entry.name != "" && entry.name[0] == '.' }

  predicate Usable(entry: Entry) {
    !entry.isDir && Parse(entry.name).Some? && entry.contents.Some?
  }

  predicate AllUsable(entries: seq<Entry>) {
    forall i :: 0 <= i < |entries| && !Hidden(entries[i]) ==> Usable(entries[i])
  }

  /** `hash` is the hex-encoded SHA-256 of a file's bytes. */
  function FileOf(entry: Entry, hash: string -> string): (file: MigrationFile)
    requires Usable(entry)
  {
    MigrationFile(Parse(entry.name).value, entry.name, hash(entry.contents.value), entry.contents.value)
  }

  /** The files of the entries that are not dotfiles, in the order given. */
  function Loaded(entries: seq<Entry>, hash: string -> string): seq<MigrationFile>
    requires AllUsable(entries)
  {
    if entries == [] then []
    else
      var last := entries[|entries| - 1];
      Loaded(entries[..|entries| - 1], hash) + (if Hidden(last) then [] else [FileOf(last, hash)])
  }

  /** The entry's name does not start with a dot. */
  predicate Visible(entry: Entry) { !("." <= entry.name) }

  /** The file is the entry's: its name, its contents, the hash of the contents, and the
      sequence that the name gives. */
  predicate FileFrom(file: MigrationFile, entry: Entry, hash: string -> string) {
    && Visible(entry) && !entry.isDir
    && file.filename == entry.name
    && entry.contents == Some(file.sql)
    && file.checksum == hash(file.sql)
    && Parse(file.filename) == Some(file.sequence)
  }

  ghost predicate HasFile(entry: Entry, hash: string -> string) {
    exists file :: FileFrom(file, entry, hash)
  }

  ghost predicate FromSome(file: MigrationFile, entries: seq<Entry>, hash: string -> string) {
    exists i :: 0 <= i < |entries| && FileFrom(file, entries[i], hash)
  }

  /** The files are exactly those of the visible entries. */
  ghost predicate ReadFrom(files: seq<MigrationFile>, entries: seq<Entry>, hash: string -> string) {
    && (forall f :: f in files ==> FromSome(f, entries, hash))
    && (forall i :: 0 <= i < |entries| && Visible(entries[i]) ==>
          exists f :: f in files && FileFrom(f, entries[i], hash))
  }

  lemma HiddenExactly(entry: Entry)
    ensures Hidden(entry) <==> !Visible(entry)
  {
    assert entry.name != "" ==> entry.name[..1] == [entry.name[0]];
  }

  /** A visible entry that is usable has one file; a hidden one has none. */
  lemma OnlyFileOf(entry: Entry, hash: string -> string, file: MigrationFile)
    ensures FileFrom(file, entry, hash) <==> !Hidden(entry) && Usable(entry) && file == FileOf(entry, hash)
  {
    HiddenExactly(entry);
  }

  lemma UsableHasFile(entry: Entry, hash: string -> string)
    ensures HasFile(entry, hash) <==> !Hidden(entry) && Usable(entry)
  {
    forall file
      ensures FileFrom(file, entry, hash) <==> !Hidden(entry) && Usable(entry) && file == FileOf(entry, hash)
    {
      OnlyFileOf(entry, hash, file);
    }
    if !Hidden(entry) && Usable(entry) {
      OnlyFileOf(entry, hash, FileOf(entry, hash));
    }
  }

  lemma FromSomeNext(file: MigrationFile, init: seq<Entry>, last: Entry, hash: string -> string)
    ensures FromSome(file, init + [last], hash) <==> FromSome(file, init, hash) || FileFrom(file, last, hash)
  {
    var all := init + [last];
    assert all[|init|] == last && forall i :: 0 <= i < |init| ==> all[i] == init[i];
    if FromSome(file, init, hash) {
      var i :| 0 <= i < |init| && FileFrom(file, init[i], hash);
      assert FileFrom(file, all[i], hash);
    }
  }

  lemma {:induction false} LoadedHas(entries: seq<Entry>, hash: string -> string, file: MigrationFile)
    requires AllUsable(entries)
    ensures file in Loaded(entries, hash) <==> FromSome(file, entries, hash)
    decreases |entries|
  {
    if entries != [] {
      var n := |entries| - 1;
      LoadedHas(entries[..n], hash, file);
      OnlyFileOf(entries[n], hash, file);
      FromSomeNext(file, entries[..n], entries[n], hash);
      assert entries[..n] + [entries[n]] == entries;
    }
  }

  lemma {:induction false} LoadedMeans(entries: seq<Entry>, hash: string -> string)
    requires AllUsable(entries)
    ensures ReadFrom(Loaded(entries, hash), entries, hash)
  {
    forall file
      ensures file in Loaded(entries, hash) <==> FromSome(file, entries, hash)
    {
      LoadedHas(entries, hash, file);
    }
    forall i | 0 <= i < |entries| && Visible(entries[i])
      ensures exists f :: f in Loaded(entries, hash) && FileFrom(f, entries[i], hash)
    {
      HiddenExactly(entries[i]);
      OnlyFileOf(entries[i], hash, FileOf(entries[i], hash));
      assert FromSome(FileOf(entries[i], hash), entries, hash);
    }
  }

  predicate Numbered(files: seq<MigrationFile>) {
    forall i :: 0 <= i < |files| ==> files[i].sequence == i + 1
  }

  /** Each of 1..n is the sequence of some file, n being the number of files. */
  ghost predicate Contiguous(files: seq<MigrationFile>) {
    forall k :: 1 <= k <= |files| ==> HasSequence(files, k)
  }

  ghost predicate HasSequence(files: seq<MigrationFile>, k: int) {
    exists f :: f in files && f.sequence == k
  }

  predicate FileLess(a: MigrationFile, b: MigrationFile) {
    if a.sequence != b.sequence then a.sequence < b.sequence else StringLess(a.filename, b.filename)
  }

  lemma FileLessOrders()
    ensures StrictWeakOrder(FileLess)
  {
    forall a, b, c
      ensures !FileLess(a, a)
      ensures FileLess(a, b) && FileLess(b, c) ==> FileLess(a, c)
      ensures !FileLess(a, b) && !FileLess(b, c) ==> !FileLess(a, c)
    {
      StringLessOrders(a.filename, b.filename, c.filename);
    }
  }

  /** Fewer than `n` files cannot hold all of 1..n. */
  lemma {:induction false} TooFew(files: seq<MigrationFile>, n: nat)
    requires |files| < n
    ensures exists k :: 1 <= k <= n && !HasSequence(files, k)
    decreases n
  {
    if HasSequence(files, n) {
      var f :| f in files && f.sequence == n;
      var i :| 0 <= i < |files| && files[i] == f;
      var rest := files[..i] + files[i + 1..];
      TooFew(rest, n - 1);
      var k :| 1 <= k <= n - 1 && !HasSequence(rest, k);
      if HasSequence(files, k) {
        DroppedStillHas(files, i, k);
      }
    }
  }

  /** Dropping a file loses its own sequence at most. */
  lemma DroppedStillHas(files: seq<MigrationFile>, i: nat, k: int)
    requires i < |files| && HasSequence(files, k) && files[i].sequence != k
    ensures HasSequence(files[..i] + files[i + 1..], k)
  {
    var rest := files[..i] + files[i + 1..];
    var g :| g in files && g.sequence == k;
    var j :| 0 <= j < |files| && files[j] == g;
    assert g == if j < i then rest[j] else rest[j - 1];
  }

  /** If `n` files hold all of 1..n they hold nothing else. */
  lemma ContiguousIsTight(files: seq<MigrationFile>, f: MigrationFile)
    requires Contiguous(files) && f in files
    ensures 1 <= f.sequence <= |files|
  {
    if !(1 <= f.sequence <= |files|) {
      var i :| 0 <= i < |files| && files[i] == f;
      var rest := files[..i] + files[i + 1..];
      forall k | 1 <= k <= |files|
        ensures HasSequence(rest, k)
      {
        DroppedStillHas(files, i, k);
      }
      TooFew(rest, |files|);
    }
  }

  /** Sorted files that hold all of 1..n are numbered. */
  lemma {:induction false} ContiguousIsNumbered(files: seq<MigrationFile>)
    requires forall i, j :: 0 <= i < j < |files| ==> files[i].sequence <= files[j].sequence
    requires Contiguous(files)
    ensures Numbered(files)
    decreases |files|
  {
    var n := |files|;
    if n > 0 {
      assert HasSequence(files, n);
      var top :| 0 <= top < n && files[top].sequence == n;
      ContiguousIsTight(files, files[n - 1]);
      var init := files[..n - 1];
      forall k | 1 <= k <= n - 1
        ensures HasSequence(init, k)
      {
        DroppedStillHas(files, n - 1, k);
        assert init == files[..n - 1] + files[n..];
      }
      ContiguousIsNumbered(init);
    }
  }

  lemma NumberedIsContiguous(files: seq<MigrationFile>)
    requires Numbered(files)
    ensures Contiguous(files)
  {
    forall k | 1 <= k <= |files|
      ensures HasSequence(files, k)
    {
      assert files[k - 1] in files;
    }
  }

  lemma SameFilesContiguous(a: seq<MigrationFile>, b: seq<MigrationFile>)
    requires multiset(a) == multiset(b)
    ensures forall k :: HasSequence(a, k) <==> HasSequence(b, k)
    ensures Contiguous(a) <==> Contiguous(b)
  {
    SameMembers(a, b);
  }

  predicate SharesSequence(files: seq<MigrationFile>, i: int, j: int, sequence: int) {
    0 <= i < j < |files| && files[i].sequence == files[j].sequence == sequence
  }

  /** The same pair of sequences is found after any rearrangement. */
  lemma SharedAfterSort(files: seq<MigrationFile>, found: seq<MigrationFile>, p: int, q: int, sequence: int)
    requires multiset(files) == multiset(found) && SharesSequence(files, p, q, sequence)
    ensures exists i, j :: SharesSequence(found, i, j, sequence)
  {
    var x, y := files[p], files[q];
    SameMembers(files, found);
    if x == y {
      TwoPlacesCount(files, p, q);
      var i, j := CountHasTwoPlaces(found, x);
      assert SharesSequence(found, i, j, sequence);
    } else {
      assert x in files && y in files;
      var i :| 0 <= i < |found| && found[i] == x;
      var j :| 0 <= j < |found| && found[j] == y;
      assert SharesSequence(found, if i < j then i else j, if i < j then j else i, sequence);
    }
  }

  /** The numbering check that ends `readMigrationFiles`. */
  method CheckNumbering(files: seq<MigrationFile>) returns (bad: Option<DiscoveryError>)
    ensures bad.None? <==> Numbered(files)
    ensures bad.Some? ==> bad.value.Duplicate? || bad.value.Hole?
    ensures bad.Some? && bad.value.Duplicate? ==> exists i, j :: SharesSequence(files, i, j, bad.value.sequence)
    ensures bad.Some? && bad.value.Hole? ==>
      var k := bad.value.sequence;
      && 1 <= k <= |files| && Numbered(files[..k - 1])
      && files[k - 1].sequence != k && (k > 1 ==> files[k - 1].sequence != k - 1)
  {
    for index := 0 to |files|
      invariant Numbered(files[..index])
    {
      if index > 0 && files[index - 1].sequence == files[index].sequence {
        assert SharesSequence(files, index - 1, index, files[index].sequence);
        return Some(Duplicate(files[index].sequence));
      }
      if files[index].sequence != index + 1 {
        assert index > 0 ==> files[index - 1] == files[..index][index - 1];
        return Some(Hole(index + 1));
      }
      assert files[..index + 1] == files[..index] + [files[index]];
    }
    assert files[..|files|] == files;
    return None;
  }

  /** The first break in sorted positive sequences is the first missing one. */
  lemma FirstHole(files: seq<MigrationFile>, k: int)
    requires forall i, j :: 0 <= i < j < |files| ==> files[i].sequence <= files[j].sequence
    requires forall f :: f in files ==> f.sequence >= 1
    requires 1 <= k <= |files| && Numbered(files[..k - 1])
    requires files[k - 1].sequence != k && (k > 1 ==> files[k - 1].sequence != k - 1)
    ensures !HasSequence(files, k) && forall m :: 1 <= m < k ==> HasSequence(files, m)
  {
    forall m | 1 <= m < k
      ensures HasSequence(files, m)
    {
      assert files[..k - 1][m - 1] == files[m - 1];
      assert files[m - 1] in files;
    }
    if k > 1 {
      assert files[..k - 1][k - 2] == files[k - 2];
    }
    assert files[k - 1] in files;
    assert files[k - 1].sequence > k;
    forall i | 0 <= i < |files|
      ensures files[i].sequence != k
    {
      if i < k - 1 {
        assert files[i] == files[..k - 1][i];
      }
    }
  }

  lemma ParsedIsPositive(filename: string)
    ensures Parse(filename).Some? ==> Parse(filename).value >= 1
  {
  }

  lemma {:induction false} LoadedArePositive(entries: seq<Entry>, hash: string -> string)
    requires AllUsable(entries)
    ensures forall f :: f in Loaded(entries, hash) ==> f.sequence >= 1
    decreases |entries|
  {
    if entries != [] {
      LoadedArePositive(entries[..|entries| - 1], hash);
      ParsedIsPositive(entries[|entries| - 1].name);
    }
  }

  lemma UsableNext(entries: seq<Entry>, i: nat)
    requires i < |entries|
    ensures AllUsable(entries[..i + 1]) <==> AllUsable(entries[..i]) && (Hidden(entries[i]) || Usable(entries[i]))
  {
    var before, through := entries[..i], entries[..i + 1];
    assert through[i] == entries[i];
    assert forall j :: 0 <= j < i ==> through[j] == before[j];
  }

  lemma SortedBySequence(files: seq<MigrationFile>)
    requires Ordered(files, FileLess)
    ensures forall i, j :: 0 <= i < j < |files| ==> files[i].sequence <= files[j].sequence
  {
    forall i, j | 0 <= i < j < |files|
      ensures files[i].sequence <= files[j].sequence
    {
      assert !FileLess(files[j], files[i]);
    }
  }

  lemma FilesForAll(entries: seq<Entry>, hash: string -> string)
    requires AllUsable(entries)
    ensures forall i :: 0 <= i < |entries| && Visible(entries[i]) ==> HasFile(entries[i], hash)
  {
    forall i | 0 <= i < |entries| && Visible(entries[i])
      ensures HasFile(entries[i], hash)
    {
      HiddenExactly(entries[i]);
      UsableHasFile(entries[i], hash);
    }
  }

  /** The reading loop: it stops at the first entry it cannot use. */
  method LoadEntries(entries: seq<Entry>, hash: string -> string)
    returns (result: Result<seq<MigrationFile>, DiscoveryError>)
    ensures result.Ok? <==> AllUsable(entries)
    ensures result.Ok? ==> result.value == Loaded(entries, hash)
    ensures result.Ok? <==> forall i :: 0 <= i < |entries| && Visible(entries[i]) ==> HasFile(entries[i], hash)
    ensures result.Ok? ==> ReadFrom(result.value, entries, hash)
    ensures result.Err? ==> !result.error.Duplicate? && !result.error.Hole?
    ensures result.Err? ==>
      exists i :: 0 <= i < |entries| && AllUsable(entries[..i]) && Blocks(entries[i], result.error)
  {
    var found: seq<MigrationFile> := [];
    for i := 0 to |entries|
      invariant AllUsable(entries[..i])
      invariant found == Loaded(entries[..i], hash)
    {
      var entry := entries[i];
      UsableNext(entries, i);
      HiddenExactly(entry);
      UsableHasFile(entry, hash);
      assert entries[..i + 1][..i] == entries[..i];
      if Hidden(entry) {
        continue;
      }
      if entry.isDir {
        assert Blocks(entries[i], Subdirectory(entry.name));
        return Err(Subdirectory(entry.name));
      }
      var sequence := Parse(entry.name);
      if sequence.None? {
        assert Blocks(entries[i], BadFilename(entry.name));
        return Err(BadFilename(entry.name));
      }
      if entry.contents.None? {
        assert Blocks(entries[i], Unreadable(entry.name));
        return Err(Unreadable(entry.name));
      }
      found := found + [MigrationFile(sequence.value, entry.name, hash(entry.contents.value), entry.contents.value)];
    }
    assert entries[..|entries|] == entries;
    FilesForAll(entries, hash);
    LoadedMeans(entries, hash);
    return Ok(found);
  }

  /** Why an entry stops the loading, in the order the checks are made. */
  predicate Blocks(entry: Entry, error: DiscoveryError) {
    && !Hidden(entry)
    && match error
       case Subdirectory(name) => name == entry.name && entry.isDir
       case BadFilename(name) => name == entry.name && !entry.isDir && Parse(name).None?
       case Unreadable(name) => name == entry.name && !entry.isDir && Parse(name).Some? && entry.contents.None?
       case _ => false
  }

  /** Two visible entries whose names give one sequence. */
  predicate Clash(entries: seq<Entry>, i: int, j: int, sequence: int) {
    && 0 <= i < j < |entries| && Visible(entries[i]) && Visible(entries[j])
    && Parse(entries[i].name) == Some(sequence) == Parse(entries[j].name)
  }

  /** What reading a directory may return: the files of its visible entries, one of each,
      numbered from 1. */
  ghost predicate IsRead(files: seq<MigrationFile>, entries: seq<Entry>, hash: string -> string) {
    Numbered(files) && ReadFrom(files, entries, hash) && forall i, j, k :: !Clash(entries, i, j, k)
  }

  lemma SharedInLonger(files: seq<MigrationFile>, longer: seq<MigrationFile>, sequence: int)
    requires files <= longer && exists p, q :: SharesSequence(files, p, q, sequence)
    ensures exists p, q :: SharesSequence(longer, p, q, sequence)
  {
    var p, q :| SharesSequence(files, p, q, sequence);
    assert SharesSequence(longer, p, q, sequence);
  }

  lemma SharedByLast(init: seq<MigrationFile>, file: MigrationFile, last: MigrationFile)
    requires file in init && file.sequence == last.sequence
    ensures exists p, q :: SharesSequence(init + [last], p, q, last.sequence)
  {
    var p :| 0 <= p < |init| && init[p] == file;
    assert SharesSequence(init + [last], p, |init|, last.sequence);
  }

  /** A visible entry's file is loaded, under the sequence its name gives. */
  lemma {:induction false} VisibleIsLoaded(entries: seq<Entry>, hash: string -> string, i: int, k: int)
    returns (file: MigrationFile)
    requires AllUsable(entries)
    requires 0 <= i < |entries| && Visible(entries[i]) && Parse(entries[i].name) == Some(k)
    ensures FileFrom(file, entries[i], hash) && file in Loaded(entries, hash) && file.sequence == k
  {
    LoadedMeans(entries, hash);
    file :| file in Loaded(entries, hash) && FileFrom(file, entries[i], hash);
  }

  lemma {:induction false} ClashWithLast(entries: seq<Entry>, hash: string -> string, i: int, k: int)
    requires AllUsable(entries) && Clash(entries, i, |entries| - 1, k)
    ensures exists p, q :: SharesSequence(Loaded(entries, hash), p, q, k)
  {
    var n := |entries| - 1;
    var file := VisibleIsLoaded(entries[..n], hash, i, k);
    HiddenExactly(entries[n]);
    var last := FileOf(entries[n], hash);
    assert Loaded(entries, hash) == Loaded(entries[..n], hash) + [last];
    SharedByLast(Loaded(entries[..n], hash), file, last);
  }

  lemma {:induction false} ClashIsLoaded(entries: seq<Entry>, hash: string -> string, i: int, j: int, k: int)
    requires AllUsable(entries) && Clash(entries, i, j, k)
    ensures exists p, q :: SharesSequence(Loaded(entries, hash), p, q, k)
    decreases |entries|
  {
    var n := |entries| - 1;
    if j == n {
      ClashWithLast(entries, hash, i, k);
    } else {
      ClashIsLoaded(entries[..n], hash, i, j, k);
      SharedInLonger(Loaded(entries[..n], hash), Loaded(entries, hash), k);
    }
  }

  /** Numbered files that rearrange the loaded ones are what reading may return. */
  lemma {:induction false} SortedIsRead(files: seq<MigrationFile>, entries: seq<Entry>, hash: string -> string)
    requires AllUsable(entries) && Numbered(files) && multiset(files) == multiset(Loaded(entries, hash))
    ensures IsRead(files, entries, hash)
  {
    LoadedMeans(entries, hash);
    SameMembers(files, Loaded(entries, hash));
    forall i, j, k
      ensures !Clash(entries, i, j, k)
    {
      if Clash(entries, i, j, k) {
        ClashIsLoaded(entries, hash, i, j, k);
        var p, q :| SharesSequence(Loaded(entries, hash), p, q, k);
        SharedAfterSort(Loaded(entries, hash), files, p, q, k);
      }
    }
  }

  /** There is only one such result. */
  lemma ReadIsDetermined(
    fromA: seq<MigrationFile>, fromB: seq<MigrationFile>, entries: seq<Entry>, hash: string -> string)
    requires IsRead(fromA, entries, hash) && IsRead(fromB, entries, hash)
    ensures fromA == fromB
  {
    forall f
      ensures f in fromA <==> f in fromB
    {
      if f in fromA {
        ReadHas(fromA, fromB, entries, hash, f);
      }
      if f in fromB {
        ReadHas(fromB, fromA, entries, hash, f);
      }
    }
    NumberedByMembers(fromA, fromB);
  }

  lemma SameFile(f: MigrationFile, g: MigrationFile, entry: Entry, hash: string -> string)
    requires FileFrom(f, entry, hash) && FileFrom(g, entry, hash)
    ensures f == g
  {
  }

  lemma ReadHas(
    fromA: seq<MigrationFile>, fromB: seq<MigrationFile>, entries: seq<Entry>, hash: string -> string,
    f: MigrationFile)
    requires ReadFrom(fromA, entries, hash) && ReadFrom(fromB, entries, hash) && f in fromA
    ensures f in fromB
  {
    assert FromSome(f, entries, hash);
    var i :| 0 <= i < |entries| && FileFrom(f, entries[i], hash);
    var g :| g in fromB && FileFrom(g, entries[i], hash);
    SameFile(f, g, entries[i], hash);
  }

  /** Reading succeeds exactly when every entry that is not a dotfile is a readable,
      well-named file and the sequences are a permutation of 1..n; the files then come out
      numbered.  An error names the first entry that blocks, a sequence two files share, or
      the first missing sequence. */
  method ReadMigrationFiles(entries: seq<Entry>, hash: string -> string)
    returns (result: Result<seq<MigrationFile>, DiscoveryError>)
    ensures result.Ok? <==> AllUsable(entries) && Contiguous(Loaded(entries, hash))
    ensures result.Ok? ==> Numbered(result.value) && multiset(result.value) == multiset(Loaded(entries, hash))
    ensures result.Ok? ==> IsRead(result.value, entries, hash)
    ensures result.Err? ==>
      if result.error.Duplicate? then
        AllUsable(entries) && exists i, j :: SharesSequence(Loaded(entries, hash), i, j, result.error.sequence)
      else if result.error.Hole? then
        && AllUsable(entries) && !HasSequence(Loaded(entries, hash), result.error.sequence)
        && forall k :: 1 <= k < result.error.sequence ==> HasSequence(Loaded(entries, hash), k)
      else
        exists i :: 0 <= i < |entries| && AllUsable(entries[..i]) && Blocks(entries[i], result.error)
  {
    var loaded := LoadEntries(entries, hash);
    if loaded.Err? {
      return loaded;
    }
    var found := loaded.value;
    FileLessOrders();
    var files := SortSlice(found, FileLess);
    SameFilesContiguous(files, found);
    SortedBySequence(files);
    var bad := CheckNumbering(files);
    if bad.None? {
      NumberedIsContiguous(files);
      SortedIsRead(files, entries, hash);
      return Ok(files);
    }
    if Contiguous(files) {
      ContiguousIsNumbered(files);
    }
    if bad.value.Duplicate? {
      var i, j :| SharesSequence(files, i, j, bad.value.sequence);
      SharedAfterSort(files, found, i, j, bad.value.sequence);
    } else {
      LoadedArePositive(entries, hash);
      SameMembers(files, found);
      FirstHole(files, bad.value.sequence);
    }
    return Err(bad.value);
  }

  lemma UsableByMembers(a: seq<Entry>, b: seq<Entry>)
    requires multiset(a) == multiset(b) && AllUsable(a)
    ensures AllUsable(b)
  {
    SameMembers(a, b);
    forall i | 0 <= i < |b| && !Hidden(b[i])
      ensures Usable(b[i])
    {
      assert b[i] in a;
    }
  }

  /** The files one entry gives. */
  function FilesOf(hash: string -> string): Entry -> seq<MigrationFile> {
    (entry: Entry) => if Hidden(entry) || !Usable(entry) then [] else [FileOf(entry, hash)]
  }

  lemma {:induction false} LoadedIsFlat(entries: seq<Entry>, hash: string -> string)
    requires AllUsable(entries)
    ensures Loaded(entries, hash) == FlatMap(entries, FilesOf(hash))
    decreases |entries|
  {
    if entries != [] {
      LoadedIsFlat(entries[..|entries| - 1], hash);
      assert FilesOf(hash)(entries[|entries| - 1])
        == if Hidden(entries[|entries| - 1]) then [] else [FileOf(entries[|entries| - 1], hash)];
    }
  }

  lemma LoadedIgnoresOrder(a: seq<Entry>, b: seq<Entry>, hash: string -> string)
    requires multiset(a) == multiset(b) && AllUsable(a) && AllUsable(b)
    ensures multiset(Loaded(a, hash)) == multiset(Loaded(b, hash))
  {
    LoadedIsFlat(a, hash);
    LoadedIsFlat(b, hash);
    FlatMapPermutes(a, b, FilesOf(hash));
  }

  /** Whether reading succeeds does not depend on the order of the entries. */
  lemma AcceptanceIgnoresOrder(a: seq<Entry>, b: seq<Entry>, hash: string -> string)
    requires multiset(a) == multiset(b)
    ensures AllUsable(a) && Contiguous(Loaded(a, hash)) <==> AllUsable(b) && Contiguous(Loaded(b, hash))
  {
    if AllUsable(a) {
      UsableByMembers(a, b);
    }
    if AllUsable(b) {
      UsableByMembers(b, a);
    }
    if AllUsable(a) && AllUsable(b) {
      LoadedIgnoresOrder(a, b, hash);
      SameFilesContiguous(Loaded(a, hash), Loaded(b, hash));
    }
  }

  /** Nor does what is read, nor how ties are sorted. */
  lemma DiscoveryIgnoresOrder(
    a: seq<Entry>, b: seq<Entry>, hash: string -> string, fromA: seq<MigrationFile>, fromB: seq<MigrationFile>)
    requires multiset(a) == multiset(b) && AllUsable(a) && AllUsable(b)
    requires Numbered(fromA) && multiset(fromA) == multiset(Loaded(a, hash))
    requires Numbered(fromB) && multiset(fromB) == multiset(Loaded(b, hash))
    ensures fromA == fromB
  {
    LoadedIgnoresOrder(a, b, hash);
    SameMembers(fromA, fromB);
    NumberedByMembers(fromA, fromB);
  }

  lemma LongerHasMore(a: seq<MigrationFile>, b: seq<MigrationFile>)
    requires Numbered(a) && Numbered(b) && |a| < |b|
    ensures exists f :: f in b && f !in a
  {
    assert b[|a|] in b && b[|a|] !in a;
  }

  /** Numbered lists with the same members are the same list. */
  lemma NumberedByMembers(a: seq<MigrationFile>, b: seq<MigrationFile>)
    requires Numbered(a) && Numbered(b) && forall f :: f in a <==> f in b
    ensures a == b
  {
    if |a| < |b| {
      LongerHasMore(a, b);
    } else if |b| < |a| {
      LongerHasMore(b, a);
    }
    forall i | 0 <= i < |a|
      ensures a[i] == b[i]
    {
      assert a[i] in b;
    }
  }
}
