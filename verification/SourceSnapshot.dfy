/**
 * The reviewed source snapshot: what a commit's tree lists, which of it is readable, what is counted,
 * and how it is paged and read.
 */
module SourceSnapshot {
  import opened Options
  import Bytes
  import opened DraftPaths

  const MAX_FILE_BYTES: nat := 2 * 1024 * 1024
  const MAX_SNAPSHOT_BYTES: nat := 128 * 1024 * 1024
  const MAX_TREE_ENTRIES: nat := 10_000
  const MAX_READ_BYTES: nat := 16 * 1024 * 1024
  const MAX_PATH_LENGTH: nat := 1_024
  const PAGE_ENTRIES: nat := 200

  type Oid = nat
  type Content = seq<Bytes.Byte>

  /** `Sha256` is injective: a digest is the content it was made of. */
  datatype Digest = Git(oid: Oid) | Sha256(content: Content)

  datatype Reason =
    | BinaryFile | ContentNotUtf8 | FileTooLarge | PathNotUtf8 | PathUnsupported
    | SnapshotByteLimit | Submodule | SymbolicLink | UnsupportedMode

  datatype SourceFile = SourceFile(
    bytes: Option<nat>,
    digest: Option<Digest>,
    path: Option<string>,
    /** `None` is readable. */
    reason: Option<Reason>,
    content: Option<Content>)

  /** One record of the tree listing, taken apart; `path` is `None` where the name is not UTF-8. */
  datatype Record = Record(mode: string, kind: string, oid: Oid, size: Option<nat>, path: Option<string>)

  // ------------------------------------------------------------------- the tree

  /** The length in UTF-16 units, as JavaScript counts. */
  function Utf16Length(text: string): (units: nat)
    ensures |text| <= units <= 2 * |text|
  {
    if text == "" then 0 else Utf16Length(text[..|text| - 1]) + if text[|text| - 1] as int >= 0x10000 then 2 else 1
  }

  predicate SupportedPath(path: string) {
    && path != "" && Utf16Length(path) <= MAX_PATH_LENGTH && '\\' !in path && path[0] != '/'
    && "" !in Split(path) && "." !in Split(path) && ".." !in Split(path)
  }

  function SafePath(path: Option<string>): (Option<string>, Option<Reason>) {
    if path.None? then (None, Some(PathNotUtf8))
    else if SupportedPath(path.value) then (path, None)
    else (None, Some(PathUnsupported))
  }

  function ExclusionFor(record: Record): Option<Reason> {
    var (path, pathReason) := SafePath(record.path);
    if path.None? then Some(if pathReason.Some? then pathReason.value else PathUnsupported)
    else if record.mode == "120000" then Some(SymbolicLink)
    else if record.mode == "160000" || record.kind == "commit" then Some(Submodule)
    else if !(record.mode == "100644" || record.mode == "100755") || record.kind != "blob" || record.size.None? then
      Some(UnsupportedMode)
    else if record.size.value > MAX_FILE_BYTES then Some(FileTooLarge)
    else None
  }

  /** A record's entry when `admitted` bytes were let in before it. */
  function Entry(record: Record, admitted: nat): SourceFile {
    var excluded := ExclusionFor(record);
    var reason :=
      if excluded.None? && record.size.Some? && admitted + record.size.value > MAX_SNAPSHOT_BYTES then Some(SnapshotByteLimit)
      else excluded;
    SourceFile(record.size, if record.kind == "blob" then Some(Git(record.oid)) else None,
               SafePath(record.path).0, reason, None)
  }

  /** What is readable: regular files, executable or not, under a supported path, within both limits. */
  lemma ReadableExactly(record: Record, admitted: nat)
    ensures Entry(record, admitted).reason.None? <==>
              && record.path.Some? && SupportedPath(record.path.value)
              && record.kind == "blob" && record.mode in ["100644", "100755"]
              && record.size.Some? && record.size.value <= MAX_FILE_BYTES
              && admitted + record.size.value <= MAX_SNAPSHOT_BYTES
    ensures Entry(record, admitted).bytes == record.size
    ensures record.path.Some? && SupportedPath(record.path.value) ==> Entry(record, admitted).path == record.path
  {
    assert "100644"[1] == '0' && "100755"[1] == '0';
    assert "120000"[1] == '2' && "160000"[1] == '6';
    assert "blob"[0] != "commit"[0];
  }

  function Size(file: SourceFile): nat {
    if file.bytes.Some? then file.bytes.value else 0
  }

  function ReadableBytes(files: seq<SourceFile>): nat {
    if files == [] then 0
    else ReadableBytes(files[..|files| - 1]) + if files[|files| - 1].reason.None? then Size(files[|files| - 1]) else 0
  }

  function ExcludedBytes(files: seq<SourceFile>): nat {
    if files == [] then 0
    else ExcludedBytes(files[..|files| - 1]) + if files[|files| - 1].reason.None? then 0 else Size(files[|files| - 1])
  }

  function ReadableFiles(files: seq<SourceFile>): nat {
    if files == [] then 0 else ReadableFiles(files[..|files| - 1]) + if files[|files| - 1].reason.None? then 1 else 0
  }

  function AllBytes(files: seq<SourceFile>): nat {
    if files == [] then 0 else AllBytes(files[..|files| - 1]) + Size(files[|files| - 1])
  }

  lemma OneMoreFile(files: seq<SourceFile>, file: SourceFile)
    ensures ReadableBytes(files + [file]) == ReadableBytes(files) + if file.reason.None? then Size(file) else 0
    ensures ExcludedBytes(files + [file]) == ExcludedBytes(files) + if file.reason.None? then 0 else Size(file)
    ensures ReadableFiles(files + [file]) == ReadableFiles(files) + if file.reason.None? then 1 else 0
    ensures AllBytes(files + [file]) == AllBytes(files) + Size(file)
  {
    assert (files + [file])[..|files|] == files;
  }

  /** Readable: a supported path, a size within the file limit, and a blob's digest. */
  predicate WellFormed(file: SourceFile) {
    && (file.path.Some? ==> SupportedPath(file.path.value))
    && (file.reason.None? ==> file.path.Some? && file.bytes.Some? && file.bytes.value <= MAX_FILE_BYTES && file.digest.Some?)
  }

  /** As it comes from the listing, before its blob is looked at. */
  predicate Parsed(file: SourceFile) {
    WellFormed(file) && file.content.None?
  }

  /** Few enough records, each of the expected shape. */
  predicate Parseable(records: seq<Option<Record>>) {
    |records| <= MAX_TREE_ENTRIES && forall i :: 0 <= i < |records| ==> records[i].Some?
  }

  /** The inventory of such records: an entry is judged by the bytes let in before it. */
  function Inventory(records: seq<Option<Record>>): (files: seq<SourceFile>)
    requires Parseable(records)
    ensures |files| == |records|
  {
    if records == [] then []
    else
      var files := Inventory(records[..|records| - 1]);
      files + [Entry(records[|records| - 1].value, ReadableBytes(files))]
  }

  lemma InventoryGrows(records: seq<Option<Record>>, i: nat, files: seq<SourceFile>, file: SourceFile)
    requires i < |records| <= MAX_TREE_ENTRIES && Parseable(records[..i]) && records[i].Some?
    requires files == Inventory(records[..i]) && file == Entry(records[i].value, ReadableBytes(files))
    ensures Parseable(records[..i + 1]) && Inventory(records[..i + 1]) == files + [file]
    ensures ReadableBytes(files + [file]) == ReadableBytes(files) + if file.reason.None? then Size(file) else 0
  {
    FrontOf(records, i);
    OneMoreFile(files, file);
  }

  lemma FrontOf(records: seq<Option<Record>>, i: nat)
    requires i < |records|
    ensures records[..i + 1] == records[..i] + [records[i]]
    ensures |records[..i + 1]| == i + 1 && records[..i + 1][i] == records[i] && records[..i + 1][..i] == records[..i]
  {
  }

  lemma EntryIsWellFormed(record: Record, admitted: nat)
    requires admitted <= MAX_SNAPSHOT_BYTES
    ensures var file := Entry(record, admitted);
            Parsed(file) && admitted + (if file.reason.None? then Size(file) else 0) <= MAX_SNAPSHOT_BYTES
  {
  }

  lemma {:induction false} InventoryIsWellFormed(records: seq<Option<Record>>)
    requires Parseable(records)
    ensures ReadableBytes(Inventory(records)) <= MAX_SNAPSHOT_BYTES
    ensures forall i :: 0 <= i < |records| ==> Parsed(Inventory(records)[i])
  {
    if records != [] {
      var front, last := records[..|records| - 1], records[|records| - 1].value;
      var files := Inventory(front);
      InventoryIsWellFormed(front);
      EntryIsWellFormed(last, ReadableBytes(files));
      OneMoreFile(files, Entry(last, ReadableBytes(files)));
    }
  }

  /** Each entry is cut off by its own record and by what was let in before it, and by nothing else. */
  lemma {:induction false} InventoryAt(records: seq<Option<Record>>, i: nat)
    requires Parseable(records) && i < |records|
    ensures Inventory(records)[i] == Entry(records[i].value, ReadableBytes(Inventory(records)[..i]))
  {
    var front := records[..|records| - 1];
    var files := Inventory(front);
    if i < |front| {
      InventoryAt(front, i);
      assert Inventory(records)[..i] == files[..i];
    } else {
      assert Inventory(records)[..i] == files;
    }
  }

  method ParseTree(records: seq<Option<Record>>) returns (files: Attempt<seq<SourceFile>>)
    ensures files.Done? <==> Parseable(records)
    ensures files.Done? ==>
              && files.value == Inventory(records) && ReadableBytes(files.value) <= MAX_SNAPSHOT_BYTES
              && forall i :: 0 <= i < |records| ==> Parsed(files.value[i])
  {
    if |records| > MAX_TREE_ENTRIES {
      return Threw;
    }
    var admitted: nat, parsed: seq<SourceFile> := 0, [];
    for i := 0 to |records|
      invariant Parseable(records[..i]) && parsed == Inventory(records[..i]) && admitted == ReadableBytes(parsed)
    {
      if records[i].None? {
        return Threw;
      }
      var file := Entry(records[i].value, admitted);
      InventoryGrows(records, i, parsed, file);
      if file.reason.None? {
        admitted := admitted + if file.bytes.Some? then file.bytes.value else 0;
      }
      parsed := parsed + [file];
    }
    assert records[..|records|] == records;
    InventoryIsWellFormed(records);
    return Done(parsed);
  }

  // ------------------------------------------------------------------- the blobs

  /** The object store, and what its contents look like. */
  datatype Store = Store(blob: Oid -> Option<Content>, hash: Content -> Oid, utf8: Content -> bool)

  predicate IsText(store: Store, content: Content) {
    0 !in content && store.utf8(content)
  }

  /** The blob a readable entry names, unless the store lost or changed it. */
  function BlobOf(store: Store, file: SourceFile): Option<Content> {
    match file.digest
    case Some(Git(oid)) =>
      (match store.blob(oid)
       case Some(content) => if store.hash(content) == oid && file.bytes == Some(|content|) then Some(content) else None
       case None => None)
    case _ => None
  }

  function WithContent(store: Store, file: SourceFile, content: Content): SourceFile {
    if 0 in content then file.(reason := Some(BinaryFile), content := None)
    else if !store.utf8(content) then file.(reason := Some(ContentNotUtf8), content := None)
    else file.(content := Some(content), digest := Some(Sha256(content)))
  }

  predicate Waits(file: SourceFile) {
    file.reason.None? && file.digest.Some?
  }

  /** Readable now means: its whole content is there, is text, and has the digest and the size it states. */
  predicate Loaded(store: Store, file: SourceFile) {
    if file.reason.None? then
      && file.path.Some? && SupportedPath(file.path.value)
      && file.content.Some? && file.bytes == Some(|file.content.value|) && |file.content.value| <= MAX_FILE_BYTES
      && file.digest == Some(Sha256(file.content.value)) && IsText(store, file.content.value)
    else file.content.None?
  }

  /** Loading only ever takes from the readable: path and size stay. */
  predicate Follows(before: SourceFile, after: SourceFile) {
    && after.path == before.path && after.bytes == before.bytes
    && (before.reason.Some? ==> after.reason == before.reason)
  }

  /** Every blob that is to be looked at is the one its entry names. */
  predicate Intact(store: Store, files: seq<SourceFile>) {
    forall i :: 0 <= i < |files| ==> Waits(files[i]) ==> BlobOf(store, files[i]).Some?
  }

  /** What becomes of an entry once its blob was looked at. */
  function Looked(store: Store, file: SourceFile): SourceFile {
    if Waits(file) && BlobOf(store, file).Some? then WithContent(store, file, BlobOf(store, file).value) else file
  }

  function LookedAll(store: Store, files: seq<SourceFile>): (looked: seq<SourceFile>)
    ensures |looked| == |files|
  {
    seq(|files|, i requires 0 <= i < |files| => Looked(store, files[i]))
  }

  ghost predicate AllLoaded(store: Store, before: seq<SourceFile>, after: seq<SourceFile>) {
    && |before| == |after|
    && forall i :: 0 <= i < |after| ==> Loaded(store, after[i]) && WellFormed(after[i]) && Follows(before[i], after[i])
  }

  /**
   * What becomes of an entry whose blob is to be looked at: it needs the very blob its digest names, of the
   * stated size; it stays readable exactly if that is text, and then carries it and its own digest.
   */
  lemma LookedExactly(store: Store, file: SourceFile, oid: Oid, content: Content)
    requires Waits(file) && file.digest == Some(Git(oid)) && store.blob(oid) == Some(content)
    ensures BlobOf(store, file) == Some(content) <==> store.hash(content) == oid && file.bytes == Some(|content|)
    ensures BlobOf(store, file).Some? ==> BlobOf(store, file) == Some(content)
    ensures BlobOf(store, file).Some? ==>
              && Looked(store, file).reason == (if IsText(store, content) then None
                                                else if 0 in content then Some(BinaryFile) else Some(ContentNotUtf8))
              && (IsText(store, content) ==>
                    Looked(store, file).content == Some(content) && Looked(store, file).digest == Some(Sha256(content)))
  {
  }

  lemma LookedIsLoaded(store: Store, file: SourceFile)
    requires Parsed(file) && (Waits(file) ==> BlobOf(store, file).Some?)
    ensures Loaded(store, Looked(store, file)) && WellFormed(Looked(store, file)) && Follows(file, Looked(store, file))
  {
  }

  lemma AllLookedAllLoaded(store: Store, files: seq<SourceFile>)
    requires Intact(store, files) && forall i :: 0 <= i < |files| ==> Parsed(files[i])
    ensures AllLoaded(store, files, LookedAll(store, files))
  {
    var looked := LookedAll(store, files);
    forall i | 0 <= i < |files|
      ensures Loaded(store, looked[i]) && WellFormed(looked[i]) && Follows(files[i], looked[i])
    {
      LookedIsLoaded(store, files[i]);
    }
  }

  method LoadBlobs(store: Store, files: array<SourceFile>) returns (ok: bool)
    requires forall i :: 0 <= i < files.Length ==> Parsed(files[i])
    modifies files
    ensures ok <==> Intact(store, old(files[..]))
    ensures ok ==> files[..] == LookedAll(store, old(files[..])) && AllLoaded(store, old(files[..]), files[..])
  {
    ghost var before := files[..];
    for k := 0 to files.Length
      invariant forall i :: k <= i < files.Length ==> files[i] == before[i]
      invariant forall i :: 0 <= i < k ==> (Waits(before[i]) ==> BlobOf(store, before[i]).Some?) && files[i] == Looked(store, before[i])
    {
      if files[k].reason.Some? || files[k].digest.None? {
        continue;
      }
      var content := BlobOf(store, files[k]);
      if content.None? {
        assert Waits(before[k]);
        return false;
      }
      files[k] := WithContent(store, files[k], content.value);
    }
    AllLookedAllLoaded(store, before);
    assert files[..] == LookedAll(store, before);
    ok := true;
  }

  /** Fewer readable entries never read more. */
  lemma {:induction false} LoadingShrinks(before: seq<SourceFile>, after: seq<SourceFile>)
    requires |before| == |after| && forall i :: 0 <= i < |before| ==> Follows(before[i], after[i])
    ensures ReadableBytes(after) <= ReadableBytes(before) && AllBytes(after) == AllBytes(before)
  {
    if before != [] {
      LoadingShrinks(before[..|before| - 1], after[..|after| - 1]);
    }
  }

  // ------------------------------------------------------------------- the counts

  datatype Coverage = Coverage(
    complete: bool,
    excludedBytes: nat,
    excludedFiles: nat,
    readableBytes: nat,
    readableFiles: nat,
    workingTreeChangesExcluded: bool)

  /** Readable and excluded partition the inventory, in entries and in bytes. */
  predicate Counts(coverage: Coverage, files: seq<SourceFile>) {
    && coverage.readableFiles + coverage.excludedFiles == |files|
    && coverage.readableBytes + coverage.excludedBytes == AllBytes(files)
    && coverage.readableBytes == ReadableBytes(files) && coverage.readableFiles == ReadableFiles(files)
  }

  /** What the loop has counted of the first `i` entries. */
  ghost predicate CountedTo(files: seq<SourceFile>, i: nat, excludedBytes: nat, excludedFiles: nat, readableBytes: nat, readableFiles: nat)
    requires i <= |files|
  {
    && readableFiles == ReadableFiles(files[..i]) && readableFiles + excludedFiles == i
    && readableBytes == ReadableBytes(files[..i]) && readableBytes + excludedBytes == AllBytes(files[..i])
    && (excludedFiles == 0 <==> forall j :: 0 <= j < i ==> files[j].reason.None?)
  }

  lemma CountsOneMore(files: seq<SourceFile>, i: nat, excludedBytes: nat, excludedFiles: nat, readableBytes: nat, readableFiles: nat)
    requires i < |files| && CountedTo(files, i, excludedBytes, excludedFiles, readableBytes, readableFiles)
    ensures if files[i].reason.None?
            then CountedTo(files, i + 1, excludedBytes, excludedFiles, readableBytes + Size(files[i]), readableFiles + 1)
            else CountedTo(files, i + 1, excludedBytes + Size(files[i]), excludedFiles + 1, readableBytes, readableFiles)
  {
    OneMoreFile(files[..i], files[i]);
    assert files[..i] + [files[i]] == files[..i + 1];
  }

  method CoverageFor(files: seq<SourceFile>, dirty: bool) returns (coverage: Coverage)
    ensures Counts(coverage, files)
    ensures coverage.complete <==> !dirty && forall i :: 0 <= i < |files| ==> files[i].reason.None?
    ensures coverage.workingTreeChangesExcluded == dirty
  {
    var excludedBytes: nat, excludedFiles: nat, readableBytes: nat, readableFiles: nat := 0, 0, 0, 0;
    for i := 0 to |files|
      invariant CountedTo(files, i, excludedBytes, excludedFiles, readableBytes, readableFiles)
    {
      CountsOneMore(files, i, excludedBytes, excludedFiles, readableBytes, readableFiles);
      if files[i].reason.None? {
        readableBytes := readableBytes + Size(files[i]);
        readableFiles := readableFiles + 1;
      } else {
        excludedBytes := excludedBytes + Size(files[i]);
        excludedFiles := excludedFiles + 1;
      }
    }
    assert files[..|files|] == files;
    coverage := Coverage(excludedFiles == 0 && !dirty, excludedBytes, excludedFiles, readableBytes, readableFiles, dirty);
  }

  // ------------------------------------------------------------------- the snapshot

  datatype Snapshot = Snapshot(coverage: Coverage, files: seq<SourceFile>, dirty: bool)

  /** What git answers at the beginning and at the end of a pinning. */
  datatype Observed = Observed(commit: Oid, dirty: bool)

  /**
   * A snapshot comes out exactly if the listing parses, every readable entry's blob is unchanged, and the
   * repository did not move meanwhile; it holds the listing's entries, and it is consistent.
   */
  method CreateSnapshot(store: Store, before: Observed, records: seq<Option<Record>>, after: Observed)
    returns (snapshot: Attempt<Snapshot>)
    ensures snapshot.Done? <==> before == after && Parseable(records) && Intact(store, Inventory(records))
    ensures snapshot.Done? ==> Consistent(store, snapshot.value) && snapshot.value.dirty == before.dirty
    ensures snapshot.Done? ==> snapshot.value.files == LookedAll(store, Inventory(records))
  {
    var parsed := ParseTree(records);
    if parsed.Threw? {
      return Threw;
    }
    InventoryIsWellFormed(records);
    var files := new SourceFile[|parsed.value|](i requires 0 <= i < |parsed.value| => parsed.value[i]);
    assert files[..] == parsed.value;
    var loaded := LoadBlobs(store, files);
    if !loaded || after != before {
      return Threw;
    }
    var coverage := CoverageFor(files[..], false);
    PinnedIsConsistent(store, parsed.value, files[..], coverage, before.dirty);
    coverage := coverage.(workingTreeChangesExcluded := before.dirty);
    return Done(Snapshot(coverage, files[..], before.dirty));
  }

  lemma PinnedIsConsistent(store: Store, parsed: seq<SourceFile>, files: seq<SourceFile>, coverage: Coverage, dirty: bool)
    requires |parsed| <= MAX_TREE_ENTRIES && ReadableBytes(parsed) <= MAX_SNAPSHOT_BYTES
    requires AllLoaded(store, parsed, files)
    requires Counts(coverage, files) && (coverage.complete <==> forall i :: 0 <= i < |files| ==> files[i].reason.None?)
    ensures Consistent(store, Snapshot(coverage.(workingTreeChangesExcluded := dirty), files, dirty))
  {
    LoadingShrinks(parsed, files);
  }

  /** What holds of every snapshot handed out. */
  ghost predicate Consistent(store: Store, snapshot: Snapshot) {
    var coverage, files := snapshot.coverage, snapshot.files;
    && (forall i :: 0 <= i < |files| ==> Loaded(store, files[i]) && WellFormed(files[i]))
    && |files| <= MAX_TREE_ENTRIES && coverage.readableBytes <= MAX_SNAPSHOT_BYTES && Counts(coverage, files)
    && (coverage.complete <==> forall i :: 0 <= i < |files| ==> files[i].reason.None?)
    && coverage.workingTreeChangesExcluded == snapshot.dirty
  }

  // ------------------------------------------------------------------- pages

  datatype Page = Page(entries: seq<SourceFile>, next: Option<nat>)

  function Least(a: int, b: int): int {
    if a < b then a else b
  }

  /** `cursor` and `maximum` as the protocol admits them: a numeral, and at least one entry. */
  function InventoryPage(files: seq<SourceFile>, cursor: Option<nat>, maximum: Option<nat>): Page {
    var start := if cursor.Some? then cursor.value else 0;
    var count := if maximum.Some? then maximum.value else PAGE_ENTRIES;
    var from, to := Least(start, |files|), Least(start + count, |files|);
    var next := start + (to - from);
    Page(files[from..to], if next < |files| then Some(next) else None)
  }

  function Begin(files: seq<SourceFile>, cursor: Option<nat>): (start: nat)
    ensures start <= |files|
  {
    if cursor.Some? then Least(cursor.value, |files|) else 0
  }

  lemma PageIsSlice(files: seq<SourceFile>, cursor: Option<nat>, maximum: Option<nat>)
    requires maximum.Some? ==> maximum.value >= 1
    ensures var page, start := InventoryPage(files, cursor, maximum), Begin(files, cursor);
            if page.next.None? then page.entries == files[start..]
            else start < page.next.value < |files| && page.entries == files[start..page.next.value]
  {
    assert files[Begin(files, cursor)..|files|] == files[Begin(files, cursor)..];
  }

  function PagesFrom(files: seq<SourceFile>, cursor: Option<nat>, maximum: Option<nat>): seq<SourceFile>
    requires maximum.Some? ==> maximum.value >= 1
    decreases |files| - Begin(files, cursor)
  {
    PageIsSlice(files, cursor, maximum);
    var page := InventoryPage(files, cursor, maximum);
    if page.next.None? then page.entries else page.entries + PagesFrom(files, page.next, maximum)
  }

  /** Following the cursor ends, and shows every entry from where it started exactly once, in order. */
  lemma {:induction false} PagesCoverTheInventory(files: seq<SourceFile>, cursor: Option<nat>, maximum: Option<nat>)
    requires maximum.Some? ==> maximum.value >= 1
    ensures PagesFrom(files, cursor, maximum) == files[Begin(files, cursor)..]
    decreases |files| - Begin(files, cursor)
  {
    PageIsSlice(files, cursor, maximum);
    var page := InventoryPage(files, cursor, maximum);
    if page.next.Some? {
      PagesCoverTheInventory(files, page.next, maximum);
      assert files[Begin(files, cursor)..page.next.value] + files[page.next.value..] == files[Begin(files, cursor)..];
    }
  }

  // ------------------------------------------------------------------- reading

  datatype Answer = Answer(path: string, bytes: Option<nat>, digest: Option<Digest>, content: Option<Content>)

  datatype ReadResult = BytesLimit | Read(files: seq<Answer>, incomplete: bool)

  /** The last entry with this path, as a map built from the list holds it. */
  function Find(files: seq<SourceFile>, path: string): Option<SourceFile> {
    if files == [] then None
    else if files[|files| - 1].path == Some(path) then Some(files[|files| - 1])
    else Find(files[..|files| - 1], path)
  }

  lemma {:induction false} FindFinds(files: seq<SourceFile>, path: string)
    ensures Find(files, path).Some? ==> Find(files, path).value in files && Find(files, path).value.path == Some(path)
    ensures Find(files, path).None? ==> forall i :: 0 <= i < |files| ==> files[i].path != Some(path)
  {
    if files != [] {
      FindFinds(files[..|files| - 1], path);
    }
  }

  function Wanted(files: seq<SourceFile>, paths: seq<string>): nat {
    if paths == [] then 0
    else
      var found := Find(files, paths[|paths| - 1]);
      Wanted(files, paths[..|paths| - 1]) + if found.Some? && found.value.reason.None? then Size(found.value) else 0
  }

  function AnswerFor(files: seq<SourceFile>, path: string): Answer {
    match Find(files, path)
    case None => Answer(path, None, None, None)
    case Some(file) =>
      if file.reason.Some? || file.content.None? then Answer(path, file.bytes, file.digest, None)
      else Answer(path, Some(|file.content.value|), file.digest, file.content)
  }

  /** The file asked for is answered with its whole content exactly if it is readable. */
  lemma AnswersTheFile(store: Store, snapshot: Snapshot, i: nat)
    requires Consistent(store, snapshot) && i < |snapshot.files| && snapshot.files[i].path.Some?
    requires forall j :: i < j < |snapshot.files| ==> snapshot.files[j].path != snapshot.files[i].path
    ensures var file, answer := snapshot.files[i], AnswerFor(snapshot.files, snapshot.files[i].path.value);
            && answer.bytes == file.bytes && answer.digest == file.digest
            && (file.reason.None? ==> answer.content == file.content && answer.content.Some?)
            && (file.reason.Some? ==> answer.content.None?)
  {
    FindsTheLast(snapshot.files, i);
  }

  lemma {:induction false} FindsTheLast(files: seq<SourceFile>, i: nat)
    requires i < |files| && files[i].path.Some? && forall j :: i < j < |files| ==> files[j].path != files[i].path
    ensures Find(files, files[i].path.value) == Some(files[i])
    decreases |files|
  {
    if i < |files| - 1 {
      FindsTheLast(files[..|files| - 1], i);
    }
  }

  function ContentBytes(answers: seq<Answer>): nat {
    if answers == [] then 0
    else ContentBytes(answers[..|answers| - 1])
         + match answers[|answers| - 1].content case None => 0 case Some(content) => |content|
  }

  /** Paths may repeat: each repetition counts, so what is returned never exceeds the read limit. */
  method ReadFiles(store: Store, snapshot: Snapshot, paths: seq<string>) returns (r: ReadResult)
    requires Consistent(store, snapshot)
    ensures r.BytesLimit? <==> Wanted(snapshot.files, paths) > MAX_READ_BYTES
    ensures r.Read? ==> |r.files| == |paths| && ContentBytes(r.files) == Wanted(snapshot.files, paths) <= MAX_READ_BYTES
    ensures r.Read? ==> forall i :: 0 <= i < |paths| ==> r.files[i] == AnswerFor(snapshot.files, paths[i])
    ensures r.Read? ==> (r.incomplete <==> exists i :: 0 <= i < |paths| && r.files[i].content.None?)
  {
    var files := snapshot.files;
    var bytes: nat := 0;
    for i := 0 to |paths|
      invariant bytes == Wanted(files, paths[..i])
    {
      assert paths[..i + 1][..i] == paths[..i];
      var file := Find(files, paths[i]);
      if file.Some? && file.value.reason.None? {
        bytes := bytes + Size(file.value);
      }
    }
    assert paths[..|paths|] == paths;
    if bytes > MAX_READ_BYTES {
      return BytesLimit;
    }
    var answers: seq<Answer>, incomplete := [], false;
    for i := 0 to |paths|
      invariant |answers| == i
      invariant forall j :: 0 <= j < i ==> answers[j] == AnswerFor(files, paths[j])
      invariant incomplete <==> exists j :: 0 <= j < i && answers[j].content.None?
    {
      var answer := AnswerFor(files, paths[i]);
      answers := answers + [answer];
      incomplete := incomplete || answer.content.None?;
    }
    AnswersAreCounted(store, files, paths, answers);
    return Read(answers, incomplete);
  }

  lemma {:induction false} AnswersAreCounted(store: Store, files: seq<SourceFile>, paths: seq<string>, answers: seq<Answer>)
    requires forall i :: 0 <= i < |files| ==> Loaded(store, files[i])
    requires |answers| == |paths| && forall i :: 0 <= i < |paths| ==> answers[i] == AnswerFor(files, paths[i])
    ensures ContentBytes(answers) == Wanted(files, paths)
    decreases |paths|
  {
    if paths != [] {
      AnswersAreCounted(store, files, paths[..|paths| - 1], answers[..|paths| - 1]);
      FindFinds(files, paths[|paths| - 1]);
    }
  }
}
