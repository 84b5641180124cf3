/** Whole runs of one build: admin operations and ingests, with any filesystem call free to fail. */
module BundleRuns {
  import opened Wrappers
  import opened Paths
  import opened BundleTree
  import opened BundleAlignment
  import opened BundleSteps
  import opened BundleContents
  import opened BundleIngest
  import opened BundleExtracted
  import opened BundleScan
  import opened BundleUpsert

  /** `left` is what a failed wipe leaves, `closed` the folders the walk cannot list, `broken` the
      paths it cannot read, `ingested` the rows after an ingest that completes. */
  datatype Event =
    | Admin(op: Op)
    | Ingest(
        archive: Archive, ios: seq<WriteIo>, wiped: bool, left: set<string>,
        closed: set<string>, broken: set<string>, ingested: Rows)

  /** Wipe, extraction and walk all go through. */
  ghost predicate Completes(b: Build, e: Event)
    requires e.Ingest? && ForEach(e.archive, e.ios)
  {
    e.wiped && Unpackable(e.archive, e.ios) && VisibleIn(LeftByIngest(b.disk, e.archive, e.ios, true, {}), e.closed, "") !! e.broken
  }

  /** What may happen to a build: an ingest that completes makes the rows of what its walk sees. */
  ghost predicate Possible(b: Build, e: Event) {
    match e
    case Admin(op) => Enabled(b, op)
    case Ingest(archive, ios, wiped, left, closed, _, ingested) =>
      && ForEach(archive, ios) && MayRemain(b.disk, left)
      && (Completes(b, e) ==> Ingested(b.rows, Seen(LeftByIngest(b.disk, archive, ios, true, {}), closed), ingested))
  }

  ghost function Next(b: Build, e: Event): Build
    requires Possible(b, e)
  {
    match e
    case Admin(op) => Apply(b, op)
    case Ingest(archive, ios, wiped, left, _, _, ingested) =>
      Build(if Completes(b, e) then ingested else b.rows, LeftByIngest(b.disk, archive, ios, wiped, left))
  }

  /** An ingest completes, or what it leaves has every row's path. */
  ghost predicate Harmless(b: Build, e: Event)
    requires Possible(b, e)
  {
    e.Ingest? ==> Completes(b, e) || AllSurvive(b.rows, e.archive, e.ios, e.wiped, e.left)
  }

  /** An upload hashes what it places, and an ingest completes or leaves every row's bytes. */
  ghost predicate Truly(b: Build, e: Event)
    requires Possible(b, e)
  {
    match e
    case Admin(op) => Hashed(b, op)
    case Ingest(archive, ios, wiped, left, _, _, _) => Completes(b, e) || AllStayTrue(b.rows, archive, ios, wiped, left)
  }

  ghost predicate Runnable(b: Build, events: seq<Event>)
    decreases |events|
  {
    events == [] || (Possible(b, events[0]) && Harmless(b, events[0]) && Runnable(Next(b, events[0]), events[1..]))
  }

  ghost function After(b: Build, events: seq<Event>): Build
    requires Runnable(b, events)
    decreases |events|
  {
    if events == [] then b else After(Next(b, events[0]), events[1..])
  }

  /** A completed ingest aligns rows and disk and makes the rows tell the truth, whatever had
      become of them. */
  lemma CompletedIngestRealigns(b: Build, e: Event)
    requires e.Ingest? && Possible(b, e) && Completes(b, e)
    ensures Aligned(Next(b, e)) && Faithful(Next(b, e)) && NormalPaths(Next(b, e).rows)
  {
    UnpackedIsNormal(e.archive, e.ios);
    SeenAligns(b.rows, LeftByIngest(b.disk, e.archive, e.ios, true, {}), e.closed, e.ingested);
  }

  lemma EventKeepsAligned(b: Build, e: Event)
    requires Aligned(b) && NormalPaths(b.rows) && Possible(b, e) && Harmless(b, e)
    ensures Aligned(Next(b, e)) && NormalPaths(Next(b, e).rows)
  {
    match e
    case Admin(op) =>
      StepKeepsAligned(b, op);
      StepKeepsNormal(b, op);
    case Ingest(archive, ios, wiped, left, _, _, _) =>
      if Completes(b, e) { CompletedIngestRealigns(b, e); } else { FailedIngestAlignedExactly(b, archive, ios, wiped, left); }
  }

  /** Exactly which ingests part rows from disk. */
  lemma IngestAlignedExactly(b: Build, e: Event)
    requires e.Ingest? && Possible(b, e) && Aligned(b)
    ensures Aligned(Next(b, e)) <==> Harmless(b, e)
  {
    if Completes(b, e) {
      CompletedIngestRealigns(b, e);
    } else {
      FailedIngestAlignedExactly(b, e.archive, e.ios, e.wiped, e.left);
    }
  }

  /** Over every run, whatever the filesystem refuses, each row keeps a disk node of its kind,
      the name and category of its path, and a normal path no other row has. */
  lemma {:induction false} RunsKeepAligned(b: Build, events: seq<Event>)
    requires Aligned(b) && NormalPaths(b.rows) && Runnable(b, events)
    ensures Aligned(After(b, events)) && NormalPaths(After(b, events).rows)
    decreases |events|
  {
    if events != [] {
      EventKeepsAligned(b, events[0]);
      RunsKeepAligned(Next(b, events[0]), events[1..]);
    }
  }

  /** And from any build at all, once an ingest has completed. */
  lemma RunsKeepAlignedAfterIngest(b: Build, e: Event, events: seq<Event>)
    requires e.Ingest? && Possible(b, e) && Completes(b, e) && Runnable(Next(b, e), events)
    ensures Aligned(After(Next(b, e), events)) && NormalPaths(After(Next(b, e), events).rows)
  {
    CompletedIngestRealigns(b, e);
    RunsKeepAligned(Next(b, e), events);
  }

  /** Over every run, no row ever lies beneath a file row. */
  lemma NothingBelowAFile(b: Build, events: seq<Event>, i: ArtifactId, j: ArtifactId)
    requires Aligned(b) && NormalPaths(b.rows) && Runnable(b, events)
    requires i in After(b, events).rows && j in After(b, events).rows
    requires Under(After(b, events).rows[i].path, After(b, events).rows[j].path)
    ensures After(b, events).rows[j].isDir
  {
    RunsKeepAligned(b, events);
    NoRowBelowAFile(After(b, events), i, j);
  }

  // ----- The bytes -----

  lemma EventKeepsFaithful(b: Build, e: Event)
    requires Aligned(b) && NormalPaths(b.rows) && Faithful(b) && Possible(b, e) && Truly(b, e)
    ensures Faithful(Next(b, e))
  {
    match e
    case Admin(op) => StepKeepsFaithful(b, op);
    case Ingest(archive, ios, wiped, left, _, _, _) =>
      if Completes(b, e) { CompletedIngestRealigns(b, e); } else { FailedIngestFaithfulExactly(b, archive, ios, wiped, left); }
  }

  ghost predicate AllTruly(b: Build, events: seq<Event>)
    requires Runnable(b, events)
    decreases |events|
  {
    events == [] || (Truly(b, events[0]) && AllTruly(Next(b, events[0]), events[1..]))
  }

  /** Over every run whose uploads hash what they place and whose failed ingests leave every row's
      bytes, each file row tells the size and hash of the bytes at its path, wherever they have
      been moved. */
  lemma {:induction false} RunsKeepFaithful(b: Build, events: seq<Event>)
    requires Aligned(b) && NormalPaths(b.rows) && Faithful(b) && Runnable(b, events) && AllTruly(b, events)
    ensures Faithful(After(b, events))
    decreases |events|
  {
    if events != [] {
      EventKeepsFaithful(b, events[0]);
      EventKeepsAligned(b, events[0]);
      RunsKeepFaithful(Next(b, events[0]), events[1..]);
    }
  }
}
