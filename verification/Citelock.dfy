/**
 Capture and the offline gate over one lock directory. SHA-256 and the JSON of
 the provenance sidecar are parameters; fetching, the live check and the clock
 are inputs.
 */
module Citelock {
  import opened Basics
  import opened CiteRecords
  import opened Paths
  import opened Text

  /** An absolute path: its components. */
  type Path = seq<string>

  datatype Provenance = Provenance(url: string, status: int, sha256: string)

  datatype Lib = Lib(
    hash: string -> string,
    encode: Provenance -> string,
    decode: string -> Option<Provenance>)

  ghost predicate Sound(lib: Lib) {
    && (forall b :: lib.hash(b) != "")
    && (forall p :: lib.decode(lib.encode(p)) == Some(p))
  }

  /**
   The lock directory: its snapshot and sidecar files, and citations.lock. A
   lockfile without a records array reads as empty to the gate and as malformed
   to the store.
   */
  datatype Lockfile = Absent | Blank | Malformed | NoRecords | Document(doc: Doc)

  datatype Dir = Dir(files: map<Path, string>, lock: Lockfile)

  /** The records of a lockfile, as far as it has any. */
  function DocOf(lock: Lockfile): Doc {
    if lock.Document? then lock.doc else []
  }

  const SECONDS_PER_DAY: int := 86400

  // ----- strings and paths -----

  /** resolveInside: the joined path, or None when rel is absolute or leads outside. */
  function Resolve(base: Path, rel: string): (r: Option<Path>)
    ensures r.Some? ==> base <= r.value
  {
    if rel != "" && rel[0] == '/' then None
    else
      var joined := CleanFrom(true, base, Split(rel, '/'));
      if joined == base || (base != [] && base < joined) then Some(joined) else None
  }

  function SnapshotName(id: string): string {
    id + ".snapshot"
  }

  /** The snapshot path as the record stores it. */
  function SnapshotRel(id: string): string {
    "citations/" + SnapshotName(id)
  }

  function SnapshotPath(base: Path, id: string): Path {
    base + ["citations", SnapshotName(id)]
  }

  /** The sidecar beside a snapshot file. */
  function SidecarOf(snap: Path): Path {
    if snap == [] then [".prov.json"] else snap[..|snap| - 1] + [snap[|snap| - 1] + ".prov.json"]
  }

  function SidecarPath(base: Path, id: string): (r: Path)
    ensures r == SidecarOf(SnapshotPath(base, id))
  {
    base + ["citations", SnapshotName(id) + ".prov.json"]
  }

  predicate ValidId(id: string) {
    id != "" && '/' !in id && '\\' !in id && id != "." && id != ".."
  }

  /** What capture wrote is where the gate looks, unless the lock directory is the root. */
  lemma SnapshotResolves(base: Path, id: string)
    requires ValidId(id)
    ensures Resolve(base, SnapshotRel(id)) == if base == [] then None else Some(SnapshotPath(base, id))
  {
    var name := SnapshotName(id);
    assert SnapshotRel(id) == "citations" + ['/'] + name;
    SplitFirst("citations", name, '/');
    SplitWhole(name, '/');
    assert Split(SnapshotRel(id), '/') == ["citations", name];
    assert |name| > 2;
    assert ["citations", name][1..] == [name] && [name][1..] == [];
    assert CleanFrom(true, base + ["citations"], [name]) == base + ["citations"] + [name];
    assert base + ["citations"] + [name] == SnapshotPath(base, id);
  }

  lemma AppendInjective(a: string, b: string, suffix: string)
    requires a != b
    ensures a + suffix != b + suffix
  {
    assert (a + suffix)[..|a|] == a && (b + suffix)[..|b|] == b;
  }

  lemma NamesApart(a: string, b: string)
    requires a != b
    ensures SnapshotName(a) != SnapshotName(b)
    ensures SnapshotName(a) + ".prov.json" != SnapshotName(b) + ".prov.json"
    ensures SnapshotName(a) != SnapshotName(b) + ".prov.json"
    ensures SnapshotName(a) != SnapshotName(a) + ".prov.json"
  {
    AppendInjective(a, b, ".snapshot");
    AppendInjective(SnapshotName(a), SnapshotName(b), ".prov.json");
    var x, y := SnapshotName(a), SnapshotName(b) + ".prov.json";
    assert x[|x| - 1] == 't' && y[|y| - 1] == 'n';
  }

  /** A path through the parent directory resolves only if it leads back in, and an absolute one never does. */
  lemma OutsideIsRefused(base: Path, name: string)
    requires base != [] && '/' !in name && name !in {"", ".", ".."}
    ensures Resolve(base, "../" + name) == if base[|base| - 1] == name then Some(base) else None
    ensures Resolve(base, "/" + name) == None
  {
    assert "../" + name == ".." + ['/'] + name;
    SplitFirst("..", name, '/');
    SplitWhole(name, '/');
    var up := base[..|base| - 1];
    assert ["..", name][1..] == [name] && [name][1..] == [];
    assert CleanFrom(true, base, ["..", name]) == CleanFrom(true, up, [name]) == up + [name];
    assert up + [name] == base <==> base[|base| - 1] == name;
  }

  /** No two captures of different ids touch the same file. */
  lemma FilesApart(base: Path, a: string, b: string)
    requires a != b
    ensures SnapshotPath(base, a) != SnapshotPath(base, b)
    ensures SidecarPath(base, a) != SidecarPath(base, b)
    ensures SnapshotPath(base, a) != SidecarPath(base, b)
    ensures SnapshotPath(base, a) != SidecarPath(base, a)
  {
    NamesApart(a, b);
    var n := |base| + 1;
    assert SnapshotPath(base, a)[n] == SnapshotName(a) && SnapshotPath(base, b)[n] == SnapshotName(b);
    assert SidecarPath(base, a)[n] == SnapshotName(a) + ".prov.json";
    assert SidecarPath(base, b)[n] == SnapshotName(b) + ".prov.json";
  }

  // ----- the gate -----

  function FreshnessDays(claimClass: string): nat {
    if claimClass == "pricing" || claimClass == "availability" then 30
    else if claimClass == "api" then 90
    else if claimClass == "paper" then 0
    else 180
  }

  /** Whole days since the day began, truncated toward zero as Go converts to int. */
  function AgeDays(day: int, now: int): int {
    var age := now - day * SECONDS_PER_DAY;
    if age >= 0 then age / SECONDS_PER_DAY else -((-age) / SECONDS_PER_DAY)
  }

  predicate Complete(rec: Record) {
    && rec.source != "" && rec.quote != "" && rec.snapshot != ""
    && rec.sha256 != "" && rec.accessed != NoDate && rec.claimClass != ""
  }

  function SidecarSha(lib: Lib, data: string): string {
    var p := lib.decode(data);
    if p.Some? then p.value.sha256 else ""
  }

  /** Snapshot, sidecar and quote agree with the record. */
  predicate Anchored(lib: Lib, base: Path, files: map<Path, string>, rec: Record) {
    var snap := Resolve(base, rec.snapshot);
    && snap.Some?
    && snap.value in files
    && SidecarOf(snap.value) in files
    && lib.hash(files[snap.value]) == rec.sha256
    && SidecarSha(lib, files[SidecarOf(snap.value)]) == rec.sha256
    && Contains(files[snap.value], rec.quote)
  }

  predicate NotStale(rec: Record, now: int) {
    || FreshnessDays(rec.claimClass) == 0
    || (rec.accessed.Day? && AgeDays(rec.accessed.n, now) <= FreshnessDays(rec.claimClass))
  }

  predicate VerifyRecord(lib: Lib, base: Path, files: map<Path, string>, raw: Raw, now: int) {
    raw.rec.Some? && Complete(raw.rec.value) && Anchored(lib, base, files, raw.rec.value) && NotStale(raw.rec.value, now)
  }

  ghost function Failing(lib: Lib, base: Path, files: map<Path, string>, doc: Doc, now: int): nat {
    if doc == [] then 0
    else
      var last := |doc| - 1;
      Failing(lib, base, files, doc[..last], now) + if VerifyRecord(lib, base, files, doc[last], now) then 0 else 1
  }

  datatype GateResult = Passed | GateFailed(failed: nat, of: nat) | Unreadable

  /** The loop over the records. */
  method VerifyAll(lib: Lib, base: Path, files: map<Path, string>, doc: Doc, now: int) returns (failed: nat)
    ensures failed == Failing(lib, base, files, doc, now)
    ensures failed == 0 <==> forall raw :: raw in doc ==> VerifyRecord(lib, base, files, raw, now)
  {
    failed := 0;
    for i := 0 to |doc|
      invariant failed == Failing(lib, base, files, doc[..i], now)
      invariant failed == 0 <==> forall k :: 0 <= k < i ==> VerifyRecord(lib, base, files, doc[k], now)
    {
      assert doc[..i + 1][..i] == doc[..i];
      if !VerifyRecord(lib, base, files, doc[i], now) {
        failed := failed + 1;
      }
    }
    assert doc[..|doc|] == doc;
  }

  /** Verify: every record of the lockfile passes. */
  method Verify(lib: Lib, base: Path, dir: Dir, now: int) returns (r: GateResult)
    ensures r.Passed? <==> dir.lock.Absent? || dir.lock.NoRecords? ||
                           (dir.lock.Document? && forall raw :: raw in dir.lock.doc ==> VerifyRecord(lib, base, dir.files, raw, now))
    ensures r.Unreadable? <==> dir.lock.Malformed? || dir.lock.Blank?
    ensures r.GateFailed? ==> && dir.lock.Document? && r.of == |dir.lock.doc|
                              && r.failed == Failing(lib, base, dir.files, dir.lock.doc, now) > 0
  {
    if dir.lock.Absent? {
      return Passed;
    }
    if dir.lock.Malformed? || dir.lock.Blank? {
      return Unreadable;
    }
    var doc := DocOf(dir.lock);
    var failed := VerifyAll(lib, base, dir.files, doc, now);
    if failed > 0 {
      return GateFailed(failed, |doc|);
    }
    return Passed;
  }

  // ----- capture -----

  datatype Options = Options(url: string, id: string, quote: string, claimClass: string, doi: string)

  /** What the world answers one capture; `now` is its clock. */
  datatype World = World(urlSafe: bool, body: Option<string>, liveOk: bool, lockTaken: bool, now: int)

  datatype Outcome = BadOptions | UnsafeUrl | FetchFailed | Unanchored | LiveCheckFailed | LockFailed | Captured

  /** The capture stopped before it wrote anything. */
  predicate Refused(o: Outcome) {
    o.BadOptions? || o.UnsafeUrl? || o.FetchFailed? || o.Unanchored?
  }

  function DayOf(now: int): int {
    now / SECONDS_PER_DAY
  }

  function NewRecord(lib: Lib, o: Options, body: string, now: int): Record {
    Record(o.id, o.url, Day(DayOf(now)), o.claimClass, o.quote, SnapshotRel(o.id), lib.hash(body), o.doi)
  }

  function WithFiles(lib: Lib, base: Path, files: map<Path, string>, o: Options, body: string): map<Path, string> {
    files[SnapshotPath(base, o.id) := body]
         [SidecarPath(base, o.id) := lib.encode(Provenance(o.url, 200, lib.hash(body)))]
  }

  function OutcomeOf(dir: Dir, o: Options, w: World): Outcome {
    if o.id == "" || o.quote == "" || o.claimClass == "" || !ValidId(o.id) then BadOptions
    else if !w.urlSafe then UnsafeUrl
    else if w.body.None? then FetchFailed
    else if !Contains(w.body.value, o.quote) then Unanchored
    else if !w.liveOk then LiveCheckFailed
    else if !w.lockTaken || dir.lock.Malformed? || dir.lock.NoRecords? then LockFailed
    else Captured
  }

  /** The lock directory after a capture. */
  function AfterCapture(lib: Lib, base: Path, dir: Dir, o: Options, w: World): Dir {
    var outcome := OutcomeOf(dir, o, w);
    if Refused(outcome) then dir
    else
      var files := WithFiles(lib, base, dir.files, o, w.body.value);
      if outcome.Captured?
      then Dir(files, Document(Upsert(DocOf(dir.lock), NewRecord(lib, o, w.body.value, w.now))))
      else dir.(files := files)
  }

  /** The lock directory as the process sees it, written file by file. */
  class LockDir {
    const lib: Lib
    const base: Path
    var files: map<Path, string>
    var lock: Lockfile

    function Value(): Dir
      reads this
    {
      Dir(files, lock)
    }

    constructor (lib: Lib, base: Path, dir: Dir)
      ensures this.lib == lib && this.base == base && Value() == dir
    {
      this.lib, this.base, files, lock := lib, base, dir.files, dir.lock;
    }

    method Capture(o: Options, w: World) returns (outcome: Outcome)
      modifies this
      ensures outcome == OutcomeOf(old(Value()), o, w)
      ensures Value() == AfterCapture(lib, base, old(Value()), o, w)
    {
      if o.id == "" || o.quote == "" || o.claimClass == "" {
        return BadOptions;
      }
      if '/' in o.id || '\\' in o.id || o.id == "." || o.id == ".." {
        return BadOptions;
      }
      if !w.urlSafe {
        return UnsafeUrl;
      }
      if w.body.None? {
        return FetchFailed;
      }
      var body := w.body.value;
      if !Contains(body, o.quote) {
        return Unanchored;
      }
      var snap := SnapshotPath(base, o.id);
      files := files[snap := body];
      var sum := lib.hash(files[snap]);
      files := files[SidecarOf(snap) := lib.encode(Provenance(o.url, 200, sum))];
      if !w.liveOk {
        return LiveCheckFailed;
      }
      if !w.lockTaken || lock.Malformed? || lock.NoRecords? {
        return LockFailed;
      }
      var doc := DocOf(lock);
      doc := UpsertRecords(doc, Record(o.id, o.url, Day(DayOf(w.now)), o.claimClass, o.quote, SnapshotRel(o.id), sum, o.doi));
      lock := Document(doc);
      return Captured;
    }
  }

  // ----- capture and gate agree -----

  /** The record is as a capture leaves it, and so are its files. */
  ghost predicate Pinned(lib: Lib, base: Path, files: map<Path, string>, rec: Record) {
    && ValidId(rec.id) && rec.snapshot == SnapshotRel(rec.id) && rec.sha256 != ""
    && rec.quote != "" && rec.claimClass != "" && rec.accessed.Day?
    && SnapshotPath(base, rec.id) in files && SidecarPath(base, rec.id) in files
    && lib.hash(files[SnapshotPath(base, rec.id)]) == rec.sha256
    && SidecarSha(lib, files[SidecarPath(base, rec.id)]) == rec.sha256
    && Contains(files[SnapshotPath(base, rec.id)], rec.quote)
  }

  ghost predicate AllPinned(lib: Lib, base: Path, dir: Dir) {
    && !dir.lock.Malformed? && !dir.lock.NoRecords?
    && UniqueIds(DocOf(dir.lock))
    && (forall raw :: raw in DocOf(dir.lock) ==> raw.rec.Some? && raw == Encoded(raw.rec.value) && Pinned(lib, base, dir.files, raw.rec.value))
  }

  lemma AgeBound(day: int, now: int, days: nat)
    ensures AgeDays(day, now) <= days <==> now < (day + days + 1) * SECONDS_PER_DAY
  {
    var age := now - day * SECONDS_PER_DAY;
    if age >= 0 {
      assert age / SECONDS_PER_DAY <= days <==> age < (days + 1) * SECONDS_PER_DAY;
    }
  }

  /** A record that is pinned with a non-empty source passes exactly until its window has passed. */
  lemma PinnedPasses(lib: Lib, base: Path, files: map<Path, string>, rec: Record, now: int)
    requires base != [] && Pinned(lib, base, files, rec) && rec.source != ""
    ensures var days := FreshnessDays(rec.claimClass);
            VerifyRecord(lib, base, files, Encoded(rec), now)
            <==> days == 0 || now < (rec.accessed.n + days + 1) * SECONDS_PER_DAY
  {
    SnapshotResolves(base, rec.id);
    AgeBound(rec.accessed.n, now, FreshnessDays(rec.claimClass));
  }

  /** Whatever its outcome, a capture leaves the files of every other id alone. */
  lemma OthersUndisturbed(lib: Lib, base: Path, dir: Dir, o: Options, w: World, rec: Record)
    requires rec.id != o.id
    ensures var after := AfterCapture(lib, base, dir, o, w);
            && (Pinned(lib, base, dir.files, rec) <==> Pinned(lib, base, after.files, rec))
            && (Encoded(rec) in DocOf(dir.lock) <==> Encoded(rec) in DocOf(after.lock))
            && (forall p :: p == SnapshotPath(base, rec.id) || p == SidecarPath(base, rec.id) ==>
                  (p in dir.files <==> p in after.files) && (p in dir.files ==> after.files[p] == dir.files[p]))
  {
    FilesApart(base, rec.id, o.id);
    FilesApart(base, o.id, rec.id);
  }

  lemma NewlyPinned(lib: Lib, base: Path, files: map<Path, string>, o: Options, body: string, now: int)
    requires Sound(lib) && ValidId(o.id) && o.quote != "" && o.claimClass != "" && Contains(body, o.quote)
    ensures Pinned(lib, base, WithFiles(lib, base, files, o, body), NewRecord(lib, o, body, now))
  {
    FilesApart(base, o.id, o.id + "x");
  }

  /** A successful capture, and one refused before anchoring, keep every record pinned. */
  lemma CaptureKeepsPinned(lib: Lib, base: Path, dir: Dir, o: Options, w: World)
    requires Sound(lib) && AllPinned(lib, base, dir)
    requires var out := OutcomeOf(dir, o, w); Refused(out) || out.Captured?
    ensures AllPinned(lib, base, AfterCapture(lib, base, dir, o, w))
  {
    if OutcomeOf(dir, o, w).Captured? {
      var after := AfterCapture(lib, base, dir, o, w);
      var rec := NewRecord(lib, o, w.body.value, w.now);
      UpsertProperties(DocOf(dir.lock), rec);
      NewlyPinned(lib, base, dir.files, o, w.body.value, w.now);
      forall raw | raw in DocOf(after.lock)
        ensures raw.rec.Some? && raw == Encoded(raw.rec.value) && Pinned(lib, base, after.files, raw.rec.value)
      {
        if raw.id != Some(o.id) {
          OthersUndisturbed(lib, base, dir, o, w, raw.rec.value);
        }
      }
    }
  }

  /**
   Whatever files and record are there, acceptance means: the snapshot lies in
   the lock directory, its bytes have the recorded hash and hold the quote
   verbatim, and a sidecar beside it that was encoded with that same hash.
   */
  lemma AcceptedIsAnchored(lib: Lib, base: Path, files: map<Path, string>, raw: Raw, now: int)
    requires VerifyRecord(lib, base, files, raw, now)
    ensures raw.rec.Some?
    ensures exists snap :: && snap in files && base <= snap
                           && lib.hash(files[snap]) == raw.rec.value.sha256
                           && (exists i: nat :: i <= |files[snap]| && HasAt(files[snap], raw.rec.value.quote, i))
                           && SidecarOf(snap) in files && lib.decode(files[SidecarOf(snap)]).Some?
                           && lib.decode(files[SidecarOf(snap)]).value.sha256 == raw.rec.value.sha256
  {
    var snap := Resolve(base, raw.rec.value.snapshot).value;
    assert snap in files && SidecarOf(snap) in files;
  }

  /** The days a claim of this class stays fresh; none for a class that never goes stale. */
  function Window(claimClass: string): Option<nat> {
    if claimClass == "paper" then None
    else if claimClass == "pricing" || claimClass == "availability" then Some(30)
    else if claimClass == "api" then Some(90)
    else Some(180)
  }

  /** The gate accepts a class's records accessed on this day until the window has passed. */
  predicate InWindow(claimClass: string, day: int, t: int) {
    Window(claimClass).None? || t < (day + Window(claimClass).value + 1) * 86400
  }

  /**
   Whatever the record: it is accepted iff all its fields are there, snapshot,
   sidecar and quote agree with it, and its class never goes stale or its date
   reads and the window since that day has not passed.
   */
  lemma AcceptedIff(lib: Lib, base: Path, files: map<Path, string>, rec: Record, now: int)
    ensures VerifyRecord(lib, base, files, Encoded(rec), now)
            <==> && rec.source != "" && rec.quote != "" && rec.snapshot != "" && rec.sha256 != ""
                 && rec.accessed != NoDate && rec.claimClass != ""
                 && Anchored(lib, base, files, rec)
                 && (rec.claimClass == "paper" || (rec.accessed.Day? && InWindow(rec.claimClass, rec.accessed.n, now)))
  {
    if rec.accessed.Day? {
      AgeBound(rec.accessed.n, now, FreshnessDays(rec.claimClass));
    }
  }

  // ----- what a capture records -----

  /** The capture's inputs are good and everything it asks the world for works. */
  predicate AllGood(o: Options, w: World, lock: Lockfile) {
    && o.id != "" && o.id != "." && o.id != ".." && '/' !in o.id && '\\' !in o.id
    && o.quote != "" && o.claimClass != ""
    && w.urlSafe && w.body.Some? && Contains(w.body.value, o.quote) && w.liveOk && w.lockTaken
    && !lock.Malformed? && !lock.NoRecords?
  }

  /** The record says what was captured, and on which day. */
  predicate Describes(lib: Lib, rec: Record, o: Options, w: World)
    requires w.body.Some?
  {
    && rec.id == o.id && rec.source == o.url && rec.claimClass == o.claimClass && rec.quote == o.quote && rec.doi == o.doi
    && rec.snapshot == "citations/" + o.id + ".snapshot" && rec.sha256 == lib.hash(w.body.value)
    && rec.accessed.Day? && rec.accessed.n * 86400 <= w.now < (rec.accessed.n + 1) * 86400
  }

  lemma NewRecordDescribes(lib: Lib, o: Options, w: World)
    requires w.body.Some?
    ensures Describes(lib, NewRecord(lib, o, w.body.value, w.now), o, w)
  {
    assert SnapshotRel(o.id) == "citations/" + o.id + ".snapshot";
  }

  /**
   A capture succeeds iff its inputs are good and the world plays along. Then
   the snapshot holds the fetched bytes, the sidecar says where they came from,
   and the lockfile has one element of this id, the record of this capture. A
   capture that is refused changes nothing.
   */
  lemma CaptureRecords(lib: Lib, base: Path, dir: Dir, o: Options, w: World)
    requires Sound(lib)
    ensures OutcomeOf(dir, o, w).Captured? <==> AllGood(o, w, dir.lock)
    ensures Refused(OutcomeOf(dir, o, w)) ==> AfterCapture(lib, base, dir, o, w) == dir
    ensures AllGood(o, w, dir.lock) ==>
              var after := AfterCapture(lib, base, dir, o, w);
              var snap := base + ["citations", o.id + ".snapshot"];
              && snap in after.files && after.files[snap] == w.body.value
              && var sidecar := base + ["citations", o.id + ".snapshot.prov.json"];
              && sidecar in after.files
              && lib.decode(after.files[sidecar]) == Some(Provenance(o.url, 200, lib.hash(w.body.value)))
              && after.lock.Document?
              && (exists raw :: raw in after.lock.doc && raw.id == Some(o.id))
              && (forall raw :: raw in after.lock.doc && raw.id == Some(o.id) ==>
                    raw.rec.Some? && Describes(lib, raw.rec.value, o, w))
  {
    if AllGood(o, w, dir.lock) {
      var rec := NewRecord(lib, o, w.body.value, w.now);
      var after := AfterCapture(lib, base, dir, o, w);
      FilesApart(base, o.id, o.id + "x");
      NewRecordDescribes(lib, o, w);
      assert SnapshotName(o.id) + ".prov.json" == o.id + ".snapshot.prov.json";
      assert Encoded(rec) in after.lock.doc;
    }
  }

  // ----- sequences of captures -----

  datatype Attempt = Attempt(o: Options, w: World)

  function AfterAll(lib: Lib, base: Path, dir: Dir, attempts: seq<Attempt>): Dir {
    if attempts == [] then dir
    else
      var before := AfterAll(lib, base, dir, attempts[..|attempts| - 1]);
      var a := attempts[|attempts| - 1];
      AfterCapture(lib, base, before, a.o, a.w)
  }

  /** Every attempt either succeeded or was refused before it wrote anything. */
  ghost predicate CleanRun(lib: Lib, base: Path, dir: Dir, attempts: seq<Attempt>) {
    forall k :: 0 <= k < |attempts| ==>
      var out := OutcomeOf(AfterAll(lib, base, dir, attempts[..k]), attempts[k].o, attempts[k].w);
      Refused(out) || out.Captured?
  }

  lemma {:induction false} CleanRunKeepsPinned(lib: Lib, base: Path, dir: Dir, attempts: seq<Attempt>)
    requires Sound(lib) && AllPinned(lib, base, dir) && CleanRun(lib, base, dir, attempts)
    ensures AllPinned(lib, base, AfterAll(lib, base, dir, attempts))
  {
    if attempts != [] {
      var prefix := attempts[..|attempts| - 1];
      assert forall k :: 0 <= k < |prefix| ==> prefix[..k] == attempts[..k];
      CleanRunKeepsPinned(lib, base, dir, prefix);
      var a := attempts[|attempts| - 1];
      CaptureKeepsPinned(lib, base, AfterAll(lib, base, dir, prefix), a.o, a.w);
    }
  }

  /** No attempt cites an empty source: an unsafe URL is refused. */
  ghost predicate SourcesNamed(attempts: seq<Attempt>) {
    forall k :: 0 <= k < |attempts| && attempts[k].w.urlSafe ==> attempts[k].o.url != ""
  }

  ghost predicate Sourced(dir: Dir) {
    forall raw :: raw in DocOf(dir.lock) && raw.rec.Some? ==> raw.rec.value.source != ""
  }

  lemma {:induction false} RunKeepsSourced(lib: Lib, base: Path, dir: Dir, attempts: seq<Attempt>)
    requires Sourced(dir) && SourcesNamed(attempts)
    ensures Sourced(AfterAll(lib, base, dir, attempts))
  {
    if attempts != [] {
      RunKeepsSourced(lib, base, dir, attempts[..|attempts| - 1]);
    }
  }

  /**
   After any sequence of captures into one lock directory, ids repeated at will
   and refused attempts in between, ids are unique and the gate accepts each
   record exactly until its freshness window has passed.
   */
  lemma {:induction false} CaptureAndVerifyAgree(lib: Lib, base: Path, files: map<Path, string>, attempts: seq<Attempt>, now: int)
    requires Sound(lib) && base != [] && SourcesNamed(attempts)
    requires CleanRun(lib, base, Dir(files, Absent), attempts)
    ensures var dir := AfterAll(lib, base, Dir(files, Absent), attempts);
            && UniqueIds(DocOf(dir.lock))
            && forall raw :: raw in DocOf(dir.lock) ==>
                 && raw.rec.Some? && raw.rec.value.accessed.Day?
                 && var days := FreshnessDays(raw.rec.value.claimClass);
                    VerifyRecord(lib, base, dir.files, raw, now)
                    <==> days == 0 || now < (raw.rec.value.accessed.n + days + 1) * SECONDS_PER_DAY
  {
    var start := Dir(files, Absent);
    CleanRunKeepsPinned(lib, base, start, attempts);
    RunKeepsSourced(lib, base, start, attempts);
    var dir := AfterAll(lib, base, start, attempts);
    forall raw | raw in DocOf(dir.lock)
      ensures var days := FreshnessDays(raw.rec.value.claimClass);
              VerifyRecord(lib, base, dir.files, raw, now)
              <==> days == 0 || now < (raw.rec.value.accessed.n + days + 1) * SECONDS_PER_DAY
    {
      PinnedPasses(lib, base, dir.files, raw.rec.value, now);
    }
  }

  /** Attempt k succeeded. */
  ghost predicate Succeeds(lib: Lib, base: Path, dir: Dir, attempts: seq<Attempt>, k: nat) {
    k < |attempts| && AllGood(attempts[k].o, attempts[k].w, AfterAll(lib, base, dir, attempts[..k]).lock)
  }

  /** Attempt k is the last one that captured its id. */
  ghost predicate LastCapture(lib: Lib, base: Path, dir: Dir, attempts: seq<Attempt>, k: nat) {
    && Succeeds(lib, base, dir, attempts, k)
    && forall l: nat :: k < l && Succeeds(lib, base, dir, attempts, l) ==> attempts[l].o.id != attempts[k].o.id
  }

  /** The element is the record of attempt k. */
  ghost predicate RecordOf(lib: Lib, attempts: seq<Attempt>, k: nat, raw: Raw) {
    && k < |attempts| && attempts[k].w.body.Some? && raw.rec.Some? && raw == Encoded(raw.rec.value)
    && Describes(lib, raw.rec.value, attempts[k].o, attempts[k].w)
  }

  lemma SucceedsAppend(lib: Lib, base: Path, dir: Dir, attempts: seq<Attempt>, a: Attempt, k: nat)
    ensures k < |attempts| ==> (Succeeds(lib, base, dir, attempts + [a], k) <==> Succeeds(lib, base, dir, attempts, k))
    ensures k == |attempts| ==>
              (Succeeds(lib, base, dir, attempts + [a], k) <==> AllGood(a.o, a.w, AfterAll(lib, base, dir, attempts).lock))
  {
    if k <= |attempts| {
      assert (attempts + [a])[..k] == attempts[..k];
    }
    assert attempts[..|attempts|] == attempts;
  }

  lemma {:induction false} LastCaptureAppend(lib: Lib, base: Path, dir: Dir, attempts: seq<Attempt>, a: Attempt, k: nat)
    ensures var all := attempts + [a];
            var good := AllGood(a.o, a.w, AfterAll(lib, base, dir, attempts).lock);
            LastCapture(lib, base, dir, all, k)
            <==> || (LastCapture(lib, base, dir, attempts, k) && !(good && a.o.id == attempts[k].o.id))
                 || (k == |attempts| && good)
  {
    var all := attempts + [a];
    forall l: nat ensures l < |attempts| ==> (Succeeds(lib, base, dir, all, l) <==> Succeeds(lib, base, dir, attempts, l))
                  ensures l < |attempts| ==> all[l] == attempts[l]
    {
      SucceedsAppend(lib, base, dir, attempts, a, l);
    }
    SucceedsAppend(lib, base, dir, attempts, a, |attempts|);
    SucceedsAppend(lib, base, dir, attempts, a, k);
  }

  ghost predicate HasRecordOf(lib: Lib, attempts: seq<Attempt>, k: nat, doc: Doc) {
    exists raw :: raw in doc && RecordOf(lib, attempts, k, raw)
  }

  ghost predicate IsLastRecord(lib: Lib, base: Path, dir: Dir, attempts: seq<Attempt>, raw: Raw) {
    exists k: nat :: LastCapture(lib, base, dir, attempts, k) && RecordOf(lib, attempts, k, raw)
  }

  lemma RecordOfAppend(lib: Lib, attempts: seq<Attempt>, a: Attempt, k: nat, raw: Raw)
    requires k < |attempts|
    ensures RecordOf(lib, attempts + [a], k, raw) <==> RecordOf(lib, attempts, k, raw)
  {
    assert (attempts + [a])[k] == attempts[k];
  }

  lemma SuccessRecords(lib: Lib, base: Path, files: map<Path, string>, attempts: seq<Attempt>, a: Attempt)
    requires var before := AfterAll(lib, base, Dir(files, Absent), attempts); AllGood(a.o, a.w, before.lock)
    ensures var before := AfterAll(lib, base, Dir(files, Absent), attempts);
            var rec := NewRecord(lib, a.o, a.w.body.value, a.w.now);
            && AfterCapture(lib, base, before, a.o, a.w).lock == Document(Upsert(DocOf(before.lock), rec))
            && RecordOf(lib, attempts + [a], |attempts|, Encoded(rec))
  {
    assert (attempts + [a])[|attempts|] == a;
    NewRecordDescribes(lib, a.o, a.w);
  }

  lemma FailureKeepsLock(lib: Lib, base: Path, dir: Dir, o: Options, w: World)
    requires !AllGood(o, w, dir.lock)
    ensures AfterCapture(lib, base, dir, o, w).lock == dir.lock
  {
  }

  lemma AfterAllAppend(lib: Lib, base: Path, dir: Dir, attempts: seq<Attempt>, a: Attempt)
    ensures AfterAll(lib, base, dir, attempts + [a]) == AfterCapture(lib, base, AfterAll(lib, base, dir, attempts), a.o, a.w)
  {
    assert (attempts + [a])[..|attempts|] == attempts;
  }

  /** Every element is the record of the last capture of its id. */
  lemma {:induction false} ElementsAreLastRecords(lib: Lib, base: Path, files: map<Path, string>, attempts: seq<Attempt>, raw: Raw)
    requires raw in DocOf(AfterAll(lib, base, Dir(files, Absent), attempts).lock)
    ensures IsLastRecord(lib, base, Dir(files, Absent), attempts, raw)
  {
    var dir := Dir(files, Absent);
    var prefix, a := attempts[..|attempts| - 1], attempts[|attempts| - 1];
    var before := AfterAll(lib, base, dir, prefix);
    assert attempts == prefix + [a];
    AfterAllAppend(lib, base, dir, prefix, a);
    var good := AllGood(a.o, a.w, before.lock);
    if good {
      SuccessRecords(lib, base, files, prefix, a);
    } else {
      FailureKeepsLock(lib, base, before, a.o, a.w);
    }
    if good && raw == Encoded(NewRecord(lib, a.o, a.w.body.value, a.w.now)) {
      LastCaptureAppend(lib, base, dir, prefix, a, |prefix|);
      assert LastCapture(lib, base, dir, attempts, |prefix|);
    } else {
      ElementsAreLastRecords(lib, base, files, prefix, raw);
      var k: nat :| LastCapture(lib, base, dir, prefix, k) && RecordOf(lib, prefix, k, raw);
      LastCaptureAppend(lib, base, dir, prefix, a, k);
      RecordOfAppend(lib, prefix, a, k, raw);
    }
  }

  /** The last capture of each id has its record in the lockfile. */
  lemma {:induction false} LastCapturesAreRecorded(lib: Lib, base: Path, files: map<Path, string>, attempts: seq<Attempt>, k: nat)
    requires LastCapture(lib, base, Dir(files, Absent), attempts, k)
    ensures HasRecordOf(lib, attempts, k, DocOf(AfterAll(lib, base, Dir(files, Absent), attempts).lock))
  {
    var dir := Dir(files, Absent);
    var prefix, a := attempts[..|attempts| - 1], attempts[|attempts| - 1];
    var before := AfterAll(lib, base, dir, prefix);
    assert attempts == prefix + [a];
    AfterAllAppend(lib, base, dir, prefix, a);
    LastCaptureAppend(lib, base, dir, prefix, a, k);
    var good := AllGood(a.o, a.w, before.lock);
    if good {
      SuccessRecords(lib, base, files, prefix, a);
    } else {
      FailureKeepsLock(lib, base, before, a.o, a.w);
    }
    if k < |prefix| {
      LastCapturesAreRecorded(lib, base, files, prefix, k);
      var raw :| raw in DocOf(before.lock) && RecordOf(lib, prefix, k, raw);
      RecordOfAppend(lib, prefix, a, k, raw);
      assert raw in DocOf(AfterAll(lib, base, dir, attempts).lock);
    } else {
      assert RecordOf(lib, attempts, k, Encoded(NewRecord(lib, a.o, a.w.body.value, a.w.now)));
    }
  }

  /**
   Over any sequence of captures into a new lock directory, whatever their
   outcomes, the lockfile holds the record of the last successful capture of
   each id and nothing else.
   */
  lemma {:induction false} LockfileIsLastCaptures(lib: Lib, base: Path, files: map<Path, string>, attempts: seq<Attempt>)
    ensures var dir := Dir(files, Absent);
            var doc := DocOf(AfterAll(lib, base, dir, attempts).lock);
            && (forall raw :: raw in doc ==> IsLastRecord(lib, base, dir, attempts, raw))
            && (forall k: nat :: LastCapture(lib, base, dir, attempts, k) ==> HasRecordOf(lib, attempts, k, doc))
  {
    var dir := Dir(files, Absent);
    var doc := DocOf(AfterAll(lib, base, dir, attempts).lock);
    forall raw | raw in doc ensures IsLastRecord(lib, base, dir, attempts, raw) {
      ElementsAreLastRecords(lib, base, files, attempts, raw);
    }
    forall k: nat | LastCapture(lib, base, dir, attempts, k) ensures HasRecordOf(lib, attempts, k, doc) {
      LastCapturesAreRecorded(lib, base, files, attempts, k);
    }
  }

  /**
   Over any clean run, the gate accepts the record of an id at time t iff its
   class never goes stale or t is within the class's window from the day of the
   last successful capture of that id.
   */
  lemma {:induction false} AcceptedSinceCapture(lib: Lib, base: Path, files: map<Path, string>, attempts: seq<Attempt>, k: nat, raw: Raw, t: int)
    requires Sound(lib) && base != [] && SourcesNamed(attempts) && CleanRun(lib, base, Dir(files, Absent), attempts)
    requires LastCapture(lib, base, Dir(files, Absent), attempts, k)
    requires var dir := AfterAll(lib, base, Dir(files, Absent), attempts);
             raw in DocOf(dir.lock) && RecordOf(lib, attempts, k, raw)
    ensures VerifyRecord(lib, base, AfterAll(lib, base, Dir(files, Absent), attempts).files, raw, t)
            <==> InWindow(attempts[k].o.claimClass, attempts[k].w.now / 86400, t)
  {
    CaptureAndVerifyAgree(lib, base, files, attempts, t);
    assert raw.rec.value.accessed.n == attempts[k].w.now / 86400;
  }

  /** In the root directory the gate refuses every record, however it was captured. */
  lemma {:induction false} RootRefusesAll(lib: Lib, files: map<Path, string>, rec: Record, now: int)
    requires ValidId(rec.id) && rec.snapshot == SnapshotRel(rec.id)
    ensures !VerifyRecord(lib, [], files, Encoded(rec), now)
  {
    SnapshotResolves([], rec.id);
  }

  /**
   A capture that fails its live check, or cannot take the lock or read the
   lockfile, has already replaced the snapshot. The record it leaves behind
   passes from then on iff the new bytes hash to what the record says and still
   hold its quote.
   */
  lemma FailedCaptureBreaks(lib: Lib, base: Path, dir: Dir, o: Options, w: World, rec: Record, now: int)
    requires Sound(lib) && base != []
    requires OutcomeOf(dir, o, w).LiveCheckFailed? || OutcomeOf(dir, o, w).LockFailed?
    requires Pinned(lib, base, dir.files, rec) && rec.id == o.id
    ensures var after := AfterCapture(lib, base, dir, o, w);
            && after.lock == dir.lock
            && (VerifyRecord(lib, base, after.files, Encoded(rec), now)
                <==> && VerifyRecord(lib, base, dir.files, Encoded(rec), now)
                     && lib.hash(w.body.value) == rec.sha256
                     && Contains(w.body.value, rec.quote))
  {
    SnapshotResolves(base, rec.id);
    FilesApart(base, o.id, o.id + "x");
  }

  const QUOTE_OPTIONS := Options("https://a.example", "c", "q", "paper", "")

  lemma {:induction false} FirstCapture(lib: Lib)
    requires Sound(lib)
    ensures var rec := NewRecord(lib, QUOTE_OPTIONS, "q, once", 0);
            var once := AfterCapture(lib, ["d"], Dir(map[], Absent), QUOTE_OPTIONS, World(true, Some("q, once"), true, true, 0));
            once.lock == Document([Encoded(rec)]) && Pinned(lib, ["d"], once.files, rec)
  {
    assert HasAt("q, once", "q", 0);
    assert OutcomeOf(Dir(map[], Absent), QUOTE_OPTIONS, World(true, Some("q, once"), true, true, 0)).Captured?;
    NewlyPinned(lib, ["d"], map[], QUOTE_OPTIONS, "q, once", 0);
  }

  /**
   Capture a page, then capture it again after it changed, with a live check
   that fails or a lock that is taken: the record of the first capture passed
   and never passes again.
   */
  lemma {:induction false} RecaptureBreaksRecord(lib: Lib, liveOk: bool, now: int)
    requires Sound(lib) && lib.hash("q, once") != lib.hash("q, later")
    ensures var base: Path := ["d"];
            var first := World(true, Some("q, once"), true, true, 0);
            var second := World(true, Some("q, later"), liveOk, false, 1);
            var once := AfterCapture(lib, base, Dir(map[], Absent), QUOTE_OPTIONS, first);
            var later := AfterCapture(lib, base, once, QUOTE_OPTIONS, second);
            && OutcomeOf(once, QUOTE_OPTIONS, second) == (if liveOk then LockFailed else LiveCheckFailed)
            && once.lock == later.lock == Document([Encoded(NewRecord(lib, QUOTE_OPTIONS, "q, once", 0))])
            && VerifyRecord(lib, base, once.files, once.lock.doc[0], now)
            && !VerifyRecord(lib, base, later.files, later.lock.doc[0], now)
  {
    var o, base: Path := QUOTE_OPTIONS, ["d"];
    var second := World(true, Some("q, later"), liveOk, false, 1);
    var once := AfterCapture(lib, base, Dir(map[], Absent), o, World(true, Some("q, once"), true, true, 0));
    var rec := NewRecord(lib, o, "q, once", 0);
    FirstCapture(lib);
    PinnedPasses(lib, base, once.files, rec, now);
    assert HasAt("q, later", "q", 0);
    FailedCaptureBreaks(lib, base, once, o, second, rec, now);
  }
}
