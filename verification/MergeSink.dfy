/**
 * The copy-on-write sink: it drains the projected batches, collects the data files they came from,
 * counts updated and inserted rows, writes the rows and replaces those files under their manifests.
 */
module MergeSink {
  import opened Bags
  import opened SqlExpr
  import opened MergeRows
  import opened MergePlan

  // ----------------------------------------------------------- collecting files from one batch

  /** The text of a nullable string slot; a null slot reads as the empty string. */
  function SlotText(v: Value): string {
    if v.Text? then v.s else ""
  }

  /**
   * `unique_files_and_manifests` on the first n rows: the first row, then every row whose file
   * differs from its predecessor's; null and empty paths are skipped.
   */
  function UniqueFiles(rows: seq<OutRow>, n: nat): map<string, string>
    requires n <= |rows|
  {
    if n == 0 then map[]
    else if n == 1 then
      if SlotText(rows[0].file) == "" then map[] else map[SlotText(rows[0].file) := SlotText(rows[0].manifest)]
    else
      var before, r := UniqueFiles(rows, n - 1), rows[n - 1];
      if r.file != rows[n - 2].file && r.file.Text? && r.manifest.Text? && r.file.s != ""
      then before[r.file.s := r.manifest.s]
      else before
  }

  predicate ComesFrom(rows: seq<OutRow>, n: nat, file: string)
    requires n <= |rows|
  {
    file != "" && exists i :: 0 <= i < n && rows[i].file == Text(file)
  }

  /** A row with a file path also has a manifest path. */
  predicate Traceable(rows: seq<OutRow>) {
    forall i :: 0 <= i < |rows| && rows[i].file.Text? ==> rows[i].manifest.Text?
  }

  /** Comparing neighbours finds every file of the batch, whatever the order of its rows. */
  lemma {:induction false} UniqueFilesComplete(rows: seq<OutRow>, n: nat)
    requires n <= |rows| && Traceable(rows)
    ensures forall file: string :: file in UniqueFiles(rows, n) <==> ComesFrom(rows, n, file)
  {
    if n == 1 {
      var f := rows[0].file;
      assert forall file: string :: ComesFrom(rows, 1, file) <==> file != "" && f == Text(file);
    } else if n > 1 {
      UniqueFilesComplete(rows, n - 1);
      var r := rows[n - 1];
      forall file: string
        ensures file in UniqueFiles(rows, n) <==> ComesFrom(rows, n, file)
      {
        assert ComesFrom(rows, n, file) <==> ComesFrom(rows, n - 1, file) || (file != "" && r.file == Text(file));
        if r.file == rows[n - 2].file && r.file == Text(file) && file != "" {
          assert ComesFrom(rows, n - 1, file);
        }
      }
    }
  }

  /** Some row comes from that file and manifest. */
  predicate Carried(rows: seq<OutRow>, file: string, manifest: string) {
    file != "" && exists i :: 0 <= i < |rows| && rows[i].file == Text(file) && rows[i].manifest == Text(manifest)
  }

  lemma CarriedAt(rows: seq<OutRow>, i: nat)
    requires i < |rows| && rows[i].file.Text? && rows[i].manifest.Text? && rows[i].file.s != ""
    ensures Carried(rows, rows[i].file.s, rows[i].manifest.s)
  {
  }

  /** The manifest collected for a file is that of one of its rows. */
  lemma {:induction false} UniqueFilesCarried(rows: seq<OutRow>, n: nat, file: string)
    requires n <= |rows| && Traceable(rows) && file in UniqueFiles(rows, n)
    ensures Carried(rows, file, UniqueFiles(rows, n)[file])
  {
    if n == 1 {
      CarriedAt(rows, 0);
    } else if n > 1 {
      var r := rows[n - 1];
      if r.file != rows[n - 2].file && r.file.Text? && r.manifest.Text? && r.file.s == file && file != "" {
        CarriedAt(rows, n - 1);
      } else {
        UniqueFilesCarried(rows, n - 1, file);
      }
    }
  }

  // -------------------------------------------------------------- collecting over all batches

  /** The file-to-manifest map after all batches; a later batch overrides an earlier one. */
  function Collected(batches: seq<seq<OutRow>>): map<string, string> {
    if batches == [] then map[]
    else
      var last := batches[|batches| - 1];
      Collected(batches[..|batches| - 1]) + UniqueFiles(last, |last|)
  }

  /** A batch decides for its own files; the others stay as they were. */
  lemma LaterBatchDecides(batches: seq<seq<OutRow>>, last: seq<OutRow>, file: string)
    ensures
      var (before, added, after) := (Collected(batches), UniqueFiles(last, |last|), Collected(batches + [last]));
      && (file in added ==> file in after && after[file] == added[file])
      && (file !in added ==> (file in after <==> file in before) && (file in after ==> after[file] == before[file]))
  {
    assert (batches + [last])[..|batches|] == batches;
  }

  predicate AllTraceable(batches: seq<seq<OutRow>>) {
    forall i :: 0 <= i < |batches| ==> Traceable(batches[i])
  }

  lemma CarriedConcat(a: seq<OutRow>, b: seq<OutRow>, file: string, manifest: string)
    ensures Carried(a + b, file, manifest) <==> Carried(a, file, manifest) || Carried(b, file, manifest)
  {
    if Carried(b, file, manifest) {
      var i :| 0 <= i < |b| && b[i].file == Text(file) && b[i].manifest == Text(manifest);
      assert (a + b)[|a| + i] == b[i];
    }
    if Carried(a, file, manifest) {
      var i :| 0 <= i < |a| && a[i].file == Text(file) && a[i].manifest == Text(manifest);
      assert (a + b)[i] == a[i];
    }
  }

  /** For every batching, the files collected are those of the rows, each under one of its rows' manifests. */
  lemma {:induction false} CollectedComplete(batches: seq<seq<OutRow>>, file: string)
    requires AllTraceable(batches)
    ensures file in Collected(batches) <==> ComesFrom(Concat(batches), |Concat(batches)|, file)
    ensures file in Collected(batches) ==> Carried(Concat(batches), file, Collected(batches)[file])
  {
    if batches != [] {
      var init, last := batches[..|batches| - 1], batches[|batches| - 1];
      CollectedComplete(init, file);
      UniqueFilesComplete(last, |last|);
      ComesFromConcat(Concat(init), last, file);
      if file in UniqueFiles(last, |last|) {
        UniqueFilesCarried(last, |last|, file);
        CarriedConcat(Concat(init), last, file, UniqueFiles(last, |last|)[file]);
      } else if file in Collected(init) {
        CarriedConcat(Concat(init), last, file, Collected(init)[file]);
      }
    }
  }

  /** The rows of one file agree on its manifest. */
  predicate OneManifest(rows: seq<OutRow>) {
    forall i, j :: 0 <= i < |rows| && 0 <= j < |rows| && rows[i].file.Text? && rows[i].file == rows[j].file
                   ==> rows[i].manifest == rows[j].manifest
  }

  /** Then a file is collected under a manifest exactly when its rows carry that manifest. */
  lemma CollectedUnder(batches: seq<seq<OutRow>>, file: string, manifest: string)
    requires AllTraceable(batches) && OneManifest(Concat(batches))
    ensures file in Collected(batches) && Collected(batches)[file] == manifest
            <==> Carried(Concat(batches), file, manifest)
  {
    var out := Concat(batches);
    CollectedComplete(batches, file);
    if Carried(out, file, manifest) {
      var i :| 0 <= i < |out| && out[i].file == Text(file) && out[i].manifest == Text(manifest);
      assert ComesFrom(out, |out|, file);
      var j :| 0 <= j < |out| && out[j].file == Text(file) && out[j].manifest == Text(Collected(batches)[file]);
      assert out[i].file == out[j].file;
    }
  }

  // ------------------------------------------------------------------------ the draining stream

  function TrueCount(rows: seq<OutRow>, updated: bool): nat {
    |Filter((o: OutRow) => (if updated then o.updated else o.inserted) == TRUE, rows)|
  }

  lemma TrueCountConcat(a: seq<OutRow>, b: seq<OutRow>, updated: bool)
    ensures TrueCount(a + b, updated) == TrueCount(a, updated) + TrueCount(b, updated)
  {
    FilterConcat((o: OutRow) => (if updated then o.updated else o.inserted) == TRUE, a, b);
  }

  /** What reaches the writer: the table columns, and the existence column, which is not dropped. */
  datatype Written = Written(data: Row, present: Value)

  function Write(o: OutRow): Written { Written(o.data, o.present) }

  function WriteAll(out: seq<OutRow>): seq<Written> { Map((o: OutRow) => Write(o), out) }

  class CountAndProjectStream {
    var matchingFiles: map<string, string>
    var updatedRows: int
    var insertedRows: int
    ghost var polled: seq<seq<OutRow>>

    ghost predicate Valid()
      reads this
    {
      && matchingFiles == Collected(polled)
      && updatedRows == TrueCount(Concat(polled), true)
      && insertedRows == TrueCount(Concat(polled), false)
    }

    constructor ()
      ensures Valid() && polled == []
    {
      matchingFiles, updatedRows, insertedRows, polled := map[], 0, 0, [];
    }

    /** One polled batch: remember its files, count its flags, pass its rows on. */
    method PollBatch(batch: seq<OutRow>) returns (written: seq<Written>)
      requires Valid()
      modifies this
      ensures Valid() && polled == old(polled) + [batch]
      ensures written == WriteAll(batch)
      ensures forall i :: 0 <= i < |batch| ==> written[i] == Written(batch[i].data, batch[i].present)
    {
      TrueCountConcat(Concat(polled), batch, true);
      TrueCountConcat(Concat(polled), batch, false);
      assert (polled + [batch])[..|polled|] == polled;
      matchingFiles := matchingFiles + UniqueFiles(batch, |batch|);
      updatedRows := updatedRows + TrueCount(batch, true);
      insertedRows := insertedRows + TrueCount(batch, false);
      polled := polled + [batch];
      written := WriteAll(batch);
    }

    /** End of stream: the files grouped by manifest. */
    method Finish() returns (grouped: map<string, seq<string>>)
      requires Valid()
      ensures forall manifest: string, file: string ::
                ListedUnder(grouped, manifest, file) <==>
                file in Collected(polled) && Collected(polled)[file] == manifest
    {
      grouped := GroupByManifest(matchingFiles);
    }
  }

  /** Each file is listed once grouping is done, under its own manifest and no other. */
  method GroupByManifest(files: map<string, string>) returns (grouped: map<string, seq<string>>)
    ensures forall manifest: string, file: string ::
              ListedUnder(grouped, manifest, file) <==> file in files && files[file] == manifest
  {
    grouped := map[];
    var rest := files.Keys;
    while rest != {}
      invariant rest <= files.Keys
      invariant forall manifest: string, file: string ::
                  ListedUnder(grouped, manifest, file) <==> file in files.Keys - rest && files[file] == manifest
    {
      var file :| file in rest;
      var manifest := files[file];
      ghost var before := grouped;
      grouped := Push(grouped, manifest, file);
      rest := rest - {file};
      forall m: string, f: string
        ensures ListedUnder(grouped, m, f) <==> f in files.Keys - rest && files[f] == m
      {
        PushLists(before, manifest, file, m, f);
      }
    }
  }

  function Push(grouped: map<string, seq<string>>, manifest: string, file: string): map<string, seq<string>> {
    grouped[manifest := (if manifest in grouped then grouped[manifest] else []) + [file]]
  }

  predicate ListedUnder(grouped: map<string, seq<string>>, manifest: string, file: string) {
    manifest in grouped && file in grouped[manifest]
  }

  lemma PushLists(grouped: map<string, seq<string>>, manifest: string, file: string, m: string, f: string)
    ensures ListedUnder(Push(grouped, manifest, file), m, f)
            <==> ListedUnder(grouped, m, f) || (m == manifest && f == file)
  {
  }

  lemma ComesFromConcat(a: seq<OutRow>, b: seq<OutRow>, file: string)
    ensures ComesFrom(a + b, |a + b|, file) <==> ComesFrom(a, |a|, file) || ComesFrom(b, |b|, file)
  {
    if ComesFrom(b, |b|, file) {
      var i :| 0 <= i < |b| && b[i].file == Text(file);
      assert (a + b)[|a| + i].file == Text(file);
    }
    if ComesFrom(a, |a|, file) {
      var i :| 0 <= i < |a| && a[i].file == Text(file);
      assert (a + b)[i].file == Text(file);
    }
  }

  // ---------------------------------------------------------------------------------- the commit

  predicate RemovedBy(files: map<string, string>, t: TargetRow) {
    t.file in files && files[t.file] == t.manifest
  }

  /** Written rows replace the files named, each in the manifest it is named under. */
  function Replaced(target: seq<TargetRow>, out: seq<OutRow>, files: map<string, string>): seq<Row> {
    if out == [] then StoredData(target)
    else StoredData(Filter((t: TargetRow) => !RemovedBy(files, t), target)) + DataOf(out)
  }

  /** The rows of the table once the written rows replace the files and manifests they came from. */
  function Committed(target: seq<TargetRow>, out: seq<OutRow>): seq<Row> {
    if out == [] then StoredData(target)
    else StoredData(Filter((t: TargetRow) => !Carried(out, t.file, t.manifest), target)) + DataOf(out)
  }

  /** Every target row whose place the rows carry has its file collected under its own manifest. */
  ghost predicate PlacesCollected(target: seq<TargetRow>, batches: seq<seq<OutRow>>) {
    forall t :: t in target && Carried(Concat(batches), t.file, t.manifest) ==> RemovedBy(Collected(batches), t)
  }

  /** The sink removes just the places its rows came from exactly when each is collected under its manifest. */
  lemma ReplacedIsCommittedIff(target: seq<TargetRow>, batches: seq<seq<OutRow>>)
    requires AllTraceable(batches)
    ensures Replaced(target, Concat(batches), Collected(batches)) == Committed(target, Concat(batches))
            <==> PlacesCollected(target, batches)
  {
    var out, files := Concat(batches), Collected(batches);
    var survives := (t: TargetRow) => !RemovedBy(files, t);
    var untouched := (t: TargetRow) => !Carried(out, t.file, t.manifest);
    forall t | t in target
      ensures untouched(t) ==> survives(t)
    {
      CollectedComplete(batches, t.file);
    }
    if PlacesCollected(target, batches) {
      FilterCongruent(survives, untouched, target);
    } else {
      FilterLength(survives, untouched, target);
      assert |Filter(survives, target)| > |Filter(untouched, target)|;
    }
  }

  /** In particular where the rows of a file agree on its manifest: then the batching does not matter. */
  lemma ReplacedIsCommitted(target: seq<TargetRow>, batches: seq<seq<OutRow>>)
    requires AllTraceable(batches) && OneManifest(Concat(batches))
    ensures Replaced(target, Concat(batches), Collected(batches)) == Committed(target, Concat(batches))
  {
    forall t | t in target && Carried(Concat(batches), t.file, t.manifest)
      ensures RemovedBy(Collected(batches), t)
    {
      CollectedUnder(batches, t.file, t.manifest);
    }
    ReplacedIsCommittedIff(target, batches);
  }

  /**
   * `MergeIntoCOWSinkExec::execute`: drain every batch, then append when no file matched and
   * overwrite the matched files otherwise; nothing is committed when nothing was written.
   */
  method Execute(target: seq<TargetRow>, batches: seq<seq<OutRow>>)
    returns (table: seq<Row>, updated: int, inserted: int)
    ensures table == Replaced(target, Concat(batches), Collected(batches))
    ensures updated == TrueCount(Concat(batches), true)
    ensures inserted == TrueCount(Concat(batches), false)
  {
    var stream := new CountAndProjectStream();
    var written: seq<Written> := [];
    for n := 0 to |batches|
      invariant fresh(stream) && stream.Valid() && stream.polled == batches[..n]
      invariant written == WriteAll(Concat(batches[..n]))
    {
      var rows := stream.PollBatch(batches[n]);
      MapConcat((o: OutRow) => Write(o), Concat(batches[..n]), batches[n]);
      written := written + rows;
      assert batches[..n + 1][..n] == batches[..n] && batches[..n] + [batches[n]] == batches[..n + 1];
    }
    assert batches[..|batches|] == batches;
    var grouped := stream.Finish();
    updated, inserted := stream.updatedRows, stream.insertedRows;
    table := Commit(target, Concat(batches), written, grouped, Collected(batches));
  }

  /** The commit: append, overwrite or nothing. */
  method Commit(
    target: seq<TargetRow>, ghost out: seq<OutRow>, written: seq<Written>, grouped: map<string, seq<string>>,
    ghost files: map<string, string>)
    returns (table: seq<Row>)
    requires written == WriteAll(out)
    requires forall manifest: string, file: string ::
               ListedUnder(grouped, manifest, file) <==> file in files && files[file] == manifest
    ensures table == Replaced(target, out, files)
  {
    var stored := Map((w: Written) => w.data, written);
    assert stored == DataOf(out);
    if written == [] {
      table := StoredData(target);
    } else if grouped == map[] {
      forall t | t in target
        ensures !RemovedBy(files, t)
      {
        assert !ListedUnder(grouped, t.manifest, t.file);
      }
      FilterAll((t: TargetRow) => !RemovedBy(files, t), target);
      table := StoredData(target) + stored;
    } else {
      FilterCongruent((t: TargetRow) => !ListedUnder(grouped, t.manifest, t.file),
                      (t: TargetRow) => !RemovedBy(files, t), target);
      table := StoredData(Filter((t: TargetRow) => !ListedUnder(grouped, t.manifest, t.file), target)) + stored;
    }
  }

  lemma {:induction false} FilterAll<A>(p: A -> bool, xs: seq<A>)
    requires forall x :: x in xs ==> p(x)
    ensures Filter(p, xs) == xs
  {
    if xs != [] {
      FilterAll(p, xs[1..]);
    }
  }
}
