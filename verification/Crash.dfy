/** Stopping ingest anywhere between its writes. The month files are appended to first, each
    in one write, and the cursor is renamed into place last; whatever is lost in between,
    every id a cursor vouches for is already in the ledger. */
module Crash {
  import opened Base
  import opened Lines
  import opened Dedupe
  import opened Paths
  import opened Ingest
  import opened Transcript

  /** A transcript as it is on disk. */
  datatype Content = Content(ino: int, data: seq<byte>)

  type Months = map<int, seq<Row>>

  /** The cursor file, every row ever filed, the month files on disk, and the transcripts.
      No step looks at `filed`: it is there to say what pruning has taken. */
  datatype Sys = Sys(cursorFile: Option<RawCursor>, filed: Months, disk: Months, world: map<string, Content>)

  /** One step of a run: a transcript changes; or a pass runs until `written` month files
      have been appended to, and gets as far as renaming the cursor or not; or pruning unlinks
      some of the month files that 13 later ones make old, all of them unless it is cut short
      or an unlink fails. */
  datatype Step =
    | Change(path: string, content: Content)
    | IngestStep(env: Env, files: seq<File>, loaded: map<string, Cursor>,
                 outFiles: Months, order: seq<int>, written: nat, renamed: bool)
    | PruneStep(gone: set<int>)

  // ---- what the cursor vouches for ----

  ghost predicate Counted(months: Months, id: string) {
    exists m, r :: m in months && r in months[m] && r.call.mid == id
  }

  ghost predicate RingCounted(c: Cursor, months: Months) {
    forall id :: id in c.seen ==> Counted(months, id)
  }

  ghost predicate AllCounted(calls: seq<Call>, months: Months) {
    forall c :: c in calls ==> Counted(months, c.mid)
  }

  /** If the cursor's offset applies to this content, every call below it is in the ledger. */
  ghost predicate Honest(parse: Parser, c: Cursor, content: Content, months: Months) {
    c.ino == Some(content.ino) && c.off <= |content.data| ==>
      Boundary(content.data, c.off) && AllCounted(Calls(parse, Complete(content.data[..c.off])), months)
  }

  ghost predicate SafeEntry(parse: Parser, key: string, c: Cursor, world: map<string, Content>, months: Months) {
    RingCounted(c, months) && forall p :: p in world && Key(p) == key ==> Honest(parse, c, world[p], months)
  }

  ghost predicate Safe(parse: Parser, s: Sys) {
    s.cursorFile.Some? ==>
      forall k :: k in s.cursorFile.value && s.cursorFile.value[k].Some?
        ==> SafeEntry(parse, Key(k), s.cursorFile.value[k].value, s.world, s.filed)
  }

  // ---- the steps ----

  /** A call below the offset, in content the offset applies to. */
  ghost predicate Below(parse: Parser, c: Cursor, content: Content, id: string) {
    && c.ino == Some(content.ino) && c.off <= |content.data|
    && exists k :: k in Calls(parse, Complete(content.data[..c.off])) && k.mid == id
  }

  /** What was at a path becomes other content that this entry can still vouch for: another
      inode or a shorter file gives the change away; else the offset is still on a line
      boundary, and every id below it was below it before or is in the ring. */
  ghost predicate Covered(parse: Parser, c: Cursor, was: Option<Content>, content: Content) {
    c.ino == Some(content.ino) && c.off <= |content.data| ==>
      && Boundary(content.data, c.off)
      && forall k :: k in Calls(parse, Complete(content.data[..c.off]))
           ==> k.mid in c.seen || (was.Some? && Below(parse, c, was.value, k.mid))
  }

  function At(world: map<string, Content>, path: string): Option<Content> {
    if path in world then Some(world[path]) else None
  }

  /** Every entry for this path covers the change. */
  ghost predicate Vouched(parse: Parser, s: Sys, path: string, content: Content) {
    s.cursorFile.Some? ==>
      forall k :: Names(s.cursorFile.value, k, Key(path))
        ==> Covered(parse, s.cursorFile.value[k].value, At(s.world, path), content)
  }

  ghost predicate OneKeyEach(world: map<string, Content>) {
    forall p, q :: p in world && q in world && Key(p) == Key(q) ==> p == q
  }

  /** The files a pass meets are the transcripts as they are, each at most once. */
  ghost predicate Meets(files: seq<File>, world: map<string, Content>) {
    && (forall i, j :: 0 <= i < j < |files| ==> Key(files[i].path) != Key(files[j].path))
    && forall f :: f in files ==> MeetsFile(f, world)
  }

  ghost predicate MeetsFile(f: File, world: map<string, Content>) {
    && f.path in world && f.ino == world[f.path].ino && f.size <= |world[f.path].data|
    && (f.data.Some? ==> f.data.value == world[f.path].data)
  }

  ghost predicate LoadedFrom(cursorFile: Option<RawCursor>, loaded: map<string, Cursor>) {
    match cursorFile
    case None => loaded == map[]
    case Some(raw) => Loads(raw, raw.Keys, loaded)
  }

  ghost predicate Next(parse: Parser, s: Sys, step: Step, s': Sys) {
    match step
    case Change(path, content) =>
      && s' == s.(world := s.world[path := content])
      && OneKeyEach(s'.world) && Vouched(parse, s, path, content)
    case IngestStep(env, files, loaded, outFiles, order, written, renamed) =>
      && env.reader.parse == parse && Meets(files, s.world) && LoadedFrom(s.cursorFile, loaded)
      && s'.world == s.world
      && (match WholePass(env, loaded, files)
         case PassRaised => s' == s
         case PassDone(cursor, calls) =>
           && Grouped(RowsOf(env, calls), outFiles, order) && written <= |order|
           && PartlyFiled(s.filed, outFiles, order[..written], s'.filed)
           && PartlyFiled(s.disk, outFiles, order[..written], s'.disk)
           && (if renamed then written == |order| && s'.cursorFile == Some(Saved(cursor))
               else s'.cursorFile == s.cursorFile))
    case PruneStep(gone) =>
      && (forall m :: m in gone ==> m in s.disk && |Later(s.disk, m)| >= KEEP_MONTHS)
      && s' == s.(disk := Unlinked(s.disk, gone))
  }

  function Unlinked(disk: Months, gone: set<int>): Months {
    map m | m in disk && m !in gone :: disk[m]
  }

  // ---- a growing ledger keeps every promise ----

  ghost predicate Grown(before: Months, after: Months) {
    forall id :: Counted(before, id) ==> Counted(after, id)
  }

  lemma FiledGrows(before: Months, outFiles: Months, done: seq<int>, after: Months)
    requires PartlyFiled(before, outFiles, done, after)
    ensures Grown(before, after)
  {
    forall id | Counted(before, id) ensures Counted(after, id) {
      var m, r :| m in before && r in before[m] && r.call.mid == id;
      assert m in after && r in after[m];
    }
  }

  lemma EntryGrows(parse: Parser, key: string, c: Cursor, world: map<string, Content>, before: Months, after: Months)
    requires SafeEntry(parse, key, c, world, before) && Grown(before, after)
    ensures SafeEntry(parse, key, c, world, after)
  {
  }

  lemma AllFiledCounted(env: Env, calls: seq<Call>, before: Months, outFiles: Months, order: seq<int>, after: Months)
    requires Grouped(RowsOf(env, calls), outFiles, order) && PartlyFiled(before, outFiles, order, after)
    ensures AllCounted(calls, after)
  {
    var rows := RowsOf(env, calls);
    forall c | c in calls ensures Counted(after, c.mid) {
      var i :| 0 <= i < |calls| && calls[i] == c;
      var r := rows[i];
      assert r in rows && r.call == c;
      assert r in outFiles[r.month];
      assert r in after[r.month];
    }
  }

  // ---- one transcript ----

  lemma PassFileSafe(rd: Reader, c: Cursor, f: File, content: Content, months: Months)
    requires f.ino == content.ino && f.size <= |content.data| && (f.data.Some? ==> f.data.value == content.data)
    requires f.size == StartOffset(c, f) || f.data.Some?
    requires RingCounted(c, months) && Honest(rd.parse, c, content, months)
    requires PassFile(rd, c, f).Scanned? && AllCounted(PassFile(rd, c, f).calls, months)
    ensures RingCounted(PassFile(rd, c, f).cursor, months)
    ensures Honest(rd.parse, PassFile(rd, c, f).cursor, content, months)
    ensures f.size == |content.data| ==> PassFile(rd, c, f).cursor.off == CompleteLen(content.data)
    ensures PassFile(rd, c, f).cursor.ino == Some(content.ino)
  {
    var off, data := StartOffset(c, f), content.data;
    NothingBelowZero(rd.parse, data, months);
    hide Complete, CompleteLen, Calls, Fresh, AnyRaises, Consumed, AllCounted;
    if f.size == off {
      if f.size == |data| {
        CompleteLenIs(data, off);
      }
    } else {
      ReadSafe(rd.parse, c, data, off, months);
    }
  }

  lemma NothingBelowZero(parse: Parser, data: seq<byte>, months: Months)
    ensures AllCounted(Calls(parse, Complete(data[..0])), months)
  {
    assert data[..0] == [] && Complete([]) == [];
  }

  /** Reading from a boundary below which everything is counted. */
  lemma ReadSafe(parse: Parser, c: Cursor, data: seq<byte>, off: nat, months: Months)
    requires Boundary(data, off) && AllCounted(Calls(parse, Complete(data[..off])), months) && RingCounted(c, months)
    requires AllCounted(Fresh(Calls(parse, Complete(Tail(data, off))), Id, c.seen), months)
    ensures off + Consumed(Complete(Tail(data, off))) == CompleteLen(data)
    ensures AllCounted(Calls(parse, Complete(data[..CompleteLen(data)])), months)
    ensures var out := Fresh(Calls(parse, Complete(Tail(data, off))), Id, c.seen);
            forall id :: id in Last(c.seen + Ids(out, Id), SEEN_RING) ==> Counted(months, id)
  {
    hide Complete, CompleteLen, Calls, Fresh;
    var tail := data[off..];
    ConsumedIsComplete(tail);
    CompleteLenSuffix(data, off);
    TornTailFrom(data, off);
    var n := CompleteLen(data);
    assert data[0..n] == data[..n] && data[0..off] == data[..off];
    CallsBetween(parse, data, 0, off, n);
    ChunkCounted(Calls(parse, Complete(tail)), c.seen, months);
  }

  lemma ChunkCounted(chunk: seq<Call>, seen: seq<string>, months: Months)
    requires forall id :: id in seen ==> Counted(months, id)
    requires AllCounted(Fresh(chunk, Id, seen), months)
    ensures AllCounted(chunk, months)
    ensures forall id :: id in seen + Ids(Fresh(chunk, Id, seen), Id) ==> Counted(months, id)
  {
    hide Counted, Fresh;
    var out := Fresh(chunk, Id, seen);
    forall id | id in Ids(out, Id) ensures Counted(months, id) {
      var i :| 0 <= i < |out| && Ids(out, Id)[i] == id;
      var c := out[i];
      assert c in out && Id(c) == id;
      assert Counted(months, c.mid);
    }
    FreshCovers(chunk, Id, seen);
    forall c | c in chunk ensures Counted(months, c.mid) {
      assert Id(c) == c.mid;
    }
  }

  // ---- one pass ----

  ghost predicate SafeCursor(parse: Parser, cursor: map<string, Cursor>, world: map<string, Content>, months: Months) {
    forall key :: key in cursor ==> SafeEntry(parse, key, cursor[key], world, months)
  }

  /** The cursor has passed every complete line of this file. */
  predicate ReadThrough(cursor: map<string, Cursor>, f: File, data: seq<byte>) {
    Key(f.path) in cursor && cursor[Key(f.path)].ino == Some(f.ino) && cursor[Key(f.path)].off == CompleteLen(data)
  }

  /** Told the whole size, and readable if there is anything to read. */
  predicate Whole(f: File, data: seq<byte>) {
    f.size == |data| && f.data.Some?
  }

  lemma {:induction false} PassFilesSafe(rd: Reader, cursor: map<string, Cursor>, files: seq<File>,
                                         world: map<string, Content>, months: Months)
    requires Meets(files, world) && OneKeyEach(world)
    requires SafeCursor(rd.parse, cursor, world, months)
    requires PassFiles(rd, cursor, files).PassDone? && AllCounted(PassFiles(rd, cursor, files).calls, months)
    ensures SafeCursor(rd.parse, PassFiles(rd, cursor, files).cursor, world, months)
    ensures forall f :: f in files && Whole(f, world[f.path].data)
              ==> ReadThrough(PassFiles(rd, cursor, files).cursor, f, world[f.path].data)
    decreases |files|
  {
    if files != [] {
      var f, rest := files[0], files[1..];
      assert files == [f] + rest;
      MeetsTail(files, world);
      var key := Key(f.path);
      var c := Lookup(cursor, key);
      hide SafeEntry, MeetsFile, Meets, OneKeyEach, SafeCursor, Key, StartOffset, AllCounted;
      if f.size != StartOffset(c, f) && f.data.None? {
        PassFilesSafe(rd, cursor, rest, world, months);
      } else {
        var Scanned(c', out) := PassFile(rd, c, f);
        CallsSplit(out, PassFiles(rd, cursor[key := c'], rest).calls, months);
        PassFileEntry(rd, cursor, f, world, months);
        PassFilesSafe(rd, cursor[key := c'], rest, world, months);
        PassFilesLeaves(rd, cursor[key := c'], rest, key);
      }
    }
  }

  /** A pass leaves the entries of transcripts it does not meet. */
  lemma {:induction false} PassFilesLeaves(rd: Reader, cursor: map<string, Cursor>, files: seq<File>, key: string)
    requires key in cursor && (forall f :: f in files ==> Key(f.path) != key)
    requires PassFiles(rd, cursor, files).PassDone?
    ensures key in PassFiles(rd, cursor, files).cursor && PassFiles(rd, cursor, files).cursor[key] == cursor[key]
    decreases |files|
  {
    if files != [] {
      var f, rest := files[0], files[1..];
      assert files == [f] + rest;
      hide Key, StartOffset;
      var c := Lookup(cursor, Key(f.path));
      if f.size != StartOffset(c, f) && f.data.None? {
        PassFilesLeaves(rd, cursor, rest, key);
      } else {
        PassFilesLeaves(rd, cursor[Key(f.path) := PassFile(rd, c, f).cursor], rest, key);
      }
    }
  }

  lemma MeetsTail(files: seq<File>, world: map<string, Content>)
    requires files != [] && Meets(files, world)
    ensures Meets(files[1..], world)
    ensures forall g :: g in files[1..] ==> Key(g.path) != Key(files[0].path)
  {
    forall g | g in files[1..] ensures Key(g.path) != Key(files[0].path) {
      var j :| 0 <= j < |files[1..]| && files[1..][j] == g;
      assert files[j + 1] == g;
    }
  }

  lemma CallsSplit(a: seq<Call>, b: seq<Call>, months: Months)
    requires AllCounted(a + b, months)
    ensures AllCounted(a, months) && AllCounted(b, months)
  {
    assert forall c :: c in a || c in b ==> c in a + b;
  }

  lemma PassFileEntry(rd: Reader, cursor: map<string, Cursor>, f: File, world: map<string, Content>, months: Months)
    requires MeetsFile(f, world) && OneKeyEach(world) && SafeCursor(rd.parse, cursor, world, months)
    requires var c := Lookup(cursor, Key(f.path));
             && (f.size == StartOffset(c, f) || f.data.Some?)
             && PassFile(rd, c, f).Scanned? && AllCounted(PassFile(rd, c, f).calls, months)
    ensures var c' := PassFile(rd, Lookup(cursor, Key(f.path)), f).cursor;
            && SafeCursor(rd.parse, cursor[Key(f.path) := c'], world, months)
            && (Whole(f, world[f.path].data) ==> ReadThrough(cursor[Key(f.path) := c'], f, world[f.path].data))
  {
    var c := Lookup(cursor, Key(f.path));
    assert SafeEntry(rd.parse, Key(f.path), c, world, months);
    PassFileSafe(rd, c, f, world[f.path], months);
    assert SafeEntry(rd.parse, Key(f.path), PassFile(rd, c, f).cursor, world, months);
  }

  lemma LoadedSafe(parse: Parser, s: Sys, loaded: map<string, Cursor>)
    requires Safe(parse, s) && LoadedFrom(s.cursorFile, loaded)
    ensures SafeCursor(parse, loaded, s.world, s.filed)
  {
    if s.cursorFile.Some? {
      var raw := s.cursorFile.value;
      forall key | key in loaded ensures SafeEntry(parse, key, loaded[key], s.world, s.filed) {
        assert From(raw, raw.Keys, key, loaded[key]);
        LoadedEntrySafe(parse, s, key, loaded[key]);
      }
    }
  }

  lemma LoadedEntrySafe(parse: Parser, s: Sys, key: string, c: Cursor)
    requires Safe(parse, s) && s.cursorFile.Some?
    requires From(s.cursorFile.value, s.cursorFile.value.Keys, key, c)
    ensures SafeEntry(parse, key, c, s.world, s.filed)
  {
    var raw := s.cursorFile.value;
    hide Honest, Counted;
    var k :| Names(raw, k, key) && raw[k].value.off == c.off && raw[k].value.ino == c.ino;
    assert Names(raw, k, key);
    forall id | id in c.seen ensures Counted(s.filed, id) {
      var k' :| Names(raw, k', key) && id in raw[k'].value.seen;
      assert Names(raw, k', key);
      assert SafeEntry(parse, key, raw[k'].value, s.world, s.filed);
    }
    forall p | p in s.world && Key(p) == key ensures Honest(parse, c, s.world[p], s.filed) {
      assert SafeEntry(parse, key, raw[k].value, s.world, s.filed);
      SameOffsetHonest(parse, raw[k].value, c, s.world[p], s.filed);
    }
  }

  lemma SameOffsetHonest(parse: Parser, a: Cursor, b: Cursor, content: Content, months: Months)
    requires Honest(parse, a, content, months) && a.off == b.off && a.ino == b.ino
    ensures Honest(parse, b, content, months)
  {
  }

  // ---- migrated keys ----

  predicate Normal(cursor: map<string, Cursor>) {
    forall k :: k in cursor ==> Key(k) == k
  }

  lemma LoadedNormal(cursorFile: Option<RawCursor>, loaded: map<string, Cursor>)
    requires LoadedFrom(cursorFile, loaded)
    ensures Normal(loaded)
  {
    hide Key, From;
    forall key | key in loaded ensures Key(key) == key {
      var raw := cursorFile.value;
      NamedByItself(raw, key, loaded[key]);
    }
  }

  lemma NamedByItself(raw: RawCursor, key: string, c: Cursor)
    requires From(raw, raw.Keys, key, c)
    ensures Key(key) == key
  {
    hide Key, KeepsRing;
    var k :| k in raw.Keys && Names(raw, k, key) && raw[k].value.off == c.off;
    assert Names(raw, k, key);
    KeyIdempotent(k);
  }

  lemma {:induction false} PassFilesNormal(rd: Reader, cursor: map<string, Cursor>, files: seq<File>)
    requires Normal(cursor) && PassFiles(rd, cursor, files).PassDone?
    ensures Normal(PassFiles(rd, cursor, files).cursor)
    decreases |files|
  {
    hide Key;
    if files != [] {
      var f := files[0];
      var c := Lookup(cursor, Key(f.path));
      if f.size != StartOffset(c, f) && f.data.None? {
        PassFilesNormal(rd, cursor, files[1..]);
      } else {
        KeyIdempotent(f.path);
        PassFilesNormal(rd, cursor[Key(f.path) := PassFile(rd, c, f).cursor], files[1..]);
      }
    }
  }

  function Saved(cursor: map<string, Cursor>): RawCursor {
    map k | k in cursor :: Some(cursor[k])
  }

  /** Once its keys are relative, a cursor is read back exactly as it was written. */
  lemma SavedCursorLoadsBack(cursor: map<string, Cursor>, loaded: map<string, Cursor>)
    requires Normal(cursor) && Loads(Saved(cursor), Saved(cursor).Keys, loaded)
    ensures loaded == cursor
  {
    hide Key;
    var raw := Saved(cursor);
    forall k | k in cursor ensures k in loaded && loaded[k] == cursor[k] {
      assert raw[k].Some? && forall k' :: k' in raw.Keys && Names(raw, k', Key(k)) ==> k' == k;
    }
    forall key | key in loaded ensures key in cursor {
      assert From(raw, raw.Keys, key, loaded[key]);
      var k :| k in raw.Keys && Names(raw, k, key);
      assert Names(raw, k, key);
    }
  }

  // ---- the whole run ----

  /** What the cursor vouches for survives every step, however a pass ends. */
  lemma StepKeepsSafe(parse: Parser, s: Sys, step: Step, s': Sys)
    requires Safe(parse, s) && OneKeyEach(s.world) && Next(parse, s, step, s')
    ensures Safe(parse, s') && OneKeyEach(s'.world)
    ensures Grown(s.filed, s'.filed)
  {
    match step
    case Change(path, content) =>
      ChangeKeepsSafe(parse, s, path, content);
    case IngestStep(env, files, loaded, outFiles, order, written, renamed) =>
      if WholePass(env, loaded, files).PassDone? {
        FiledGrows(s.filed, outFiles, order[..written], s'.filed);
        if renamed {
          RenamedSafe(parse, s, step, s');
        } else {
          hide PassFiles;
          UnrenamedSafe(parse, s, s');
        }
      }
    case PruneStep(_) =>
      UnrenamedSafe(parse, s, s');
  }

  lemma UnrenamedSafe(parse: Parser, s: Sys, s': Sys)
    requires Safe(parse, s) && s'.cursorFile == s.cursorFile && s'.world == s.world && Grown(s.filed, s'.filed)
    ensures Safe(parse, s')
  {
    if s.cursorFile.Some? {
      var raw := s.cursorFile.value;
      forall k | k in raw && raw[k].Some? ensures SafeEntry(parse, Key(k), raw[k].value, s'.world, s'.filed) {
        EntryGrows(parse, Key(k), raw[k].value, s.world, s.filed, s'.filed);
      }
    }
  }

  ghost predicate Completes(parse: Parser, s: Sys, step: Step, s': Sys) {
    && Next(parse, s, step, s') && step.IngestStep? && step.renamed
    && WholePass(step.env, step.loaded, step.files).PassDone?
  }

  lemma RenamedSafe(parse: Parser, s: Sys, step: Step, s': Sys)
    requires Safe(parse, s) && OneKeyEach(s.world) && Completes(parse, s, step, s')
    ensures Safe(parse, s')
    ensures forall f :: f in step.files && Whole(f, s.world[f.path].data)
              ==> AllCounted(Calls(parse, Complete(s.world[f.path].data)), s'.filed)
  {
    var PassDone(cursor, calls) := PassFiles(step.env.reader, step.loaded, step.files);
    assert step.order[..|step.order|] == step.order;
    AllFiledCounted(step.env, calls, s.filed, step.outFiles, step.order, s'.filed);
    FiledGrows(s.filed, step.outFiles, step.order, s'.filed);
    LoadedSafe(parse, s, step.loaded);
    LoadedNormal(s.cursorFile, step.loaded);
    PassFilesNormal(step.env.reader, step.loaded, step.files);
    hide PassFiles, SafeEntry, Loads, Normal, PartlyFiled, Grouped;
    forall key | key in step.loaded ensures SafeEntry(parse, key, step.loaded[key], s.world, s'.filed) {
      EntryGrows(parse, key, step.loaded[key], s.world, s.filed, s'.filed);
    }
    PassFilesSafe(step.env.reader, step.loaded, step.files, s.world, s'.filed);
    SavedSafe(parse, cursor, s');
    forall f | f in step.files && Whole(f, s.world[f.path].data)
      ensures AllCounted(Calls(parse, Complete(s.world[f.path].data)), s'.filed)
    {
      ReadThroughCounted(parse, cursor, f, s.world, s'.filed);
    }
  }

  lemma SavedSafe(parse: Parser, cursor: map<string, Cursor>, s': Sys)
    requires SafeCursor(parse, cursor, s'.world, s'.filed)
    requires s'.cursorFile == Some(Saved(cursor))
    requires Normal(cursor)
    ensures Safe(parse, s')
  {
  }

  lemma ReadThroughCounted(parse: Parser, cursor: map<string, Cursor>, f: File, world: map<string, Content>, months: Months)
    requires MeetsFile(f, world) && SafeCursor(parse, cursor, world, months)
    requires ReadThrough(cursor, f, world[f.path].data)
    ensures AllCounted(Calls(parse, Complete(world[f.path].data)), months)
  {
    var key, data := Key(f.path), world[f.path].data;
    assert SafeEntry(parse, key, cursor[key], world, months);
    assert Honest(parse, cursor[key], world[f.path], months);
    TornTail(data);
  }

  lemma ChangeKeepsSafe(parse: Parser, s: Sys, path: string, content: Content)
    requires Safe(parse, s) && Vouched(parse, s, path, content)
    requires OneKeyEach(s.world[path := content])
    ensures Safe(parse, s.(world := s.world[path := content]))
  {
    if s.cursorFile.Some? {
      var raw, world' := s.cursorFile.value, s.world[path := content];
      forall k | k in raw && raw[k].Some? ensures SafeEntry(parse, Key(k), raw[k].value, world', s.filed) {
        assert SafeEntry(parse, Key(k), raw[k].value, s.world, s.filed);
        hide Safe;
        if Key(k) == Key(path) {
          assert Names(raw, k, Key(path));
          ChangedHonest(parse, s, k, path, content);
        }
        hide Honest, Vouched;
        forall p | p in world' && Key(p) == Key(k) ensures Honest(parse, raw[k].value, world'[p], s.filed) {
        }
      }
    }
  }

  lemma ChangedHonest(parse: Parser, s: Sys, k: string, path: string, content: Content)
    requires s.cursorFile.Some? && Names(s.cursorFile.value, k, Key(path)) && Vouched(parse, s, path, content)
    requires SafeEntry(parse, Key(path), s.cursorFile.value[k].value, s.world, s.filed)
    ensures Honest(parse, s.cursorFile.value[k].value, content, s.filed)
  {
    hide Complete, Calls, Counted;
    if path in s.world {
      assert Honest(parse, s.cursorFile.value[k].value, s.world[path], s.filed);
    }
    CoveredHonest(parse, s.cursorFile.value[k].value, At(s.world, path), content, s.filed);
  }

  lemma CoveredHonest(parse: Parser, c: Cursor, was: Option<Content>, content: Content, months: Months)
    requires RingCounted(c, months) && (was.Some? ==> Honest(parse, c, was.value, months))
    requires Covered(parse, c, was, content)
    ensures Honest(parse, c, content, months)
  {
    hide Complete, Calls, Counted;
  }

  // ---- which changes a cursor survives ----

  function RowFor(id: string): Row {
    Row(Call(id, Str(""), Str(""), "", 0, 0, 0, 0, 0, Missing, false, Sound), Actor("other", ""), None, None, 0)
  }

  /** A ledger of exactly these ids. */
  function LedgerOf(ids: seq<string>): Months {
    map[0 := seq(|ids|, i requires 0 <= i < |ids| => RowFor(ids[i]))]
  }

  lemma LedgerCounts(ids: seq<string>, id: string)
    ensures Counted(LedgerOf(ids), id) <==> id in ids
  {
    var rows := LedgerOf(ids)[0];
    if id in ids {
      var i :| 0 <= i < |ids| && ids[i] == id;
      assert rows[i] in rows && rows[i].call.mid == id;
    }
    if Counted(LedgerOf(ids), id) {
      var m, r :| m in LedgerOf(ids) && r in LedgerOf(ids)[m] && r.call.mid == id;
      var i :| 0 <= i < |rows| && rows[i] == r;
      assert ids[i] == id;
    }
  }

  /** The ids an entry vouches for. */
  function VouchedIds(parse: Parser, c: Cursor, was: Option<Content>): seq<string> {
    c.seen + if was.Some? && c.ino == Some(was.value.ino) && c.off <= |was.value.data|
             then Ids(Calls(parse, Complete(was.value.data[..c.off])), Id) else []
  }

  lemma VouchedIdsAre(parse: Parser, c: Cursor, was: Option<Content>, id: string)
    ensures id in VouchedIds(parse, c, was) <==> id in c.seen || (was.Some? && Below(parse, c, was.value, id))
  {
    hide Complete, Calls;
    if was.Some? && c.ino == Some(was.value.ino) && c.off <= |was.value.data| {
      var calls := Calls(parse, Complete(was.value.data[..c.off]));
      if id in Ids(calls, Id) {
        var i :| 0 <= i < |calls| && Ids(calls, Id)[i] == id;
        assert calls[i] in calls && Id(calls[i]) == id;
      }
      if k :| k in calls && k.mid == id {
        var i :| 0 <= i < |calls| && calls[i] == k;
        assert Ids(calls, Id)[i] == Id(k);
      }
    }
  }

  ghost predicate VouchesIn(parse: Parser, c: Cursor, was: Option<Content>, months: Months) {
    RingCounted(c, months) && (was.Some? ==> Honest(parse, c, was.value, months))
  }

  lemma LeastLedger(parse: Parser, c: Cursor, was: Option<Content>)
    requires was.Some? && c.ino == Some(was.value.ino) && c.off <= |was.value.data| ==> Boundary(was.value.data, c.off)
    ensures VouchesIn(parse, c, was, LedgerOf(VouchedIds(parse, c, was)))
  {
    hide Complete, Calls, LedgerOf, Counted, VouchedIds;
    var ids := VouchedIds(parse, c, was);
    var months := LedgerOf(ids);
    forall id | id in c.seen ensures Counted(months, id) {
      VouchedIdsAre(parse, c, was, id);
      LedgerCounts(ids, id);
    }
    if was.Some? && c.ino == Some(was.value.ino) && c.off <= |was.value.data| {
      forall k | k in Calls(parse, Complete(was.value.data[..c.off])) ensures Counted(months, k.mid) {
        assert Below(parse, c, was.value, k.mid);
        VouchedIdsAre(parse, c, was, k.mid);
        LedgerCounts(ids, k.mid);
      }
    }
  }

  /** A change keeps an entry honest in every ledger in which it was, if and only if the entry
      covers it. A transcript rewritten in place, same inode and not shorter than the offset,
      with a call below the offset that was not there before is not covered: the cursor then
      vouches for a call some ledger lacks, and no pass reads it. */
  lemma SurvivesIffCovered(parse: Parser, c: Cursor, was: Option<Content>, content: Content)
    requires was.Some? && c.ino == Some(was.value.ino) && c.off <= |was.value.data| ==> Boundary(was.value.data, c.off)
    ensures Covered(parse, c, was, content)
       <==> forall months: Months :: VouchesIn(parse, c, was, months) ==> Honest(parse, c, content, months)
  {
    hide Complete, Calls, LedgerOf, Counted, VouchedIds;
    if Covered(parse, c, was, content) {
      forall months: Months | VouchesIn(parse, c, was, months) ensures Honest(parse, c, content, months) {
        CoveredHonest(parse, c, was, content, months);
      }
    } else {
      var ids := VouchedIds(parse, c, was);
      LeastLedger(parse, c, was);
      if Honest(parse, c, content, LedgerOf(ids)) {
        forall k | k in Calls(parse, Complete(content.data[..c.off]))
          ensures k.mid in c.seen || (was.Some? && Below(parse, c, was.value, k.mid))
        {
          LedgerCounts(ids, k.mid);
          VouchedIdsAre(parse, c, was, k.mid);
        }
      }
    }
  }

  /** What an uncovered change loses: a call below the offset of a file not shorter than it is
      in nothing a pass emits, unless the same id comes again above. */
  lemma BelowIsNotRead(rd: Reader, c: Cursor, f: File, id: string)
    requires c.ino == Some(f.ino) && c.off <= f.size && f.data.Some? && c.off <= |f.data.value|
    requires forall k :: k in Calls(rd.parse, Complete(f.data.value[c.off..])) ==> k.mid != id
    requires PassFile(rd, c, f).Scanned?
    ensures forall k :: k in PassFile(rd, c, f).calls ==> k.mid != id
  {
    hide Complete, Calls, Fresh;
    FreshAmong(Calls(rd.parse, Complete(f.data.value[c.off..])), Id, c.seen);
  }

  /** A run: each state follows from the one before by a step, crashes included. */
  ghost predicate IsRun(parse: Parser, states: seq<Sys>, steps: seq<Step>) {
    && |states| == |steps| + 1
    && OneKeyEach(states[0].world) && Safe(parse, states[0])
    && forall i :: 0 <= i < |steps| ==> Next(parse, states[i], steps[i], states[i + 1])
  }

  lemma {:induction false} RunIsSafe(parse: Parser, states: seq<Sys>, steps: seq<Step>, i: nat)
    requires IsRun(parse, states, steps) && i < |states|
    ensures Safe(parse, states[i]) && OneKeyEach(states[i].world)
    decreases i
  {
    hide Next, Safe, OneKeyEach;
    if i > 0 {
      RunIsSafe(parse, states, steps, i - 1);
      StepKeepsSafe(parse, states[i - 1], steps[i - 1], states[i]);
    }
  }

  lemma {:induction false} RunGrows(parse: Parser, states: seq<Sys>, steps: seq<Step>, i: nat, j: nat)
    requires IsRun(parse, states, steps) && i <= j < |states|
    ensures Grown(states[i].filed, states[j].filed)
    decreases j - i
  {
    hide Next, Safe, OneKeyEach, Counted;
    if i < j {
      RunGrows(parse, states, steps, i, j - 1);
      RunIsSafe(parse, states, steps, j - 1);
      StepKeepsSafe(parse, states[j - 1], steps[j - 1], states[j]);
    }
  }

  /** Over any run, however many passes were cut short: once one pass completes, every call
      of every transcript it read through is in the ledger, and stays there. */
  lemma NothingIsOmitted(parse: Parser, states: seq<Sys>, steps: seq<Step>, i: nat, j: nat, f: File)
    requires IsRun(parse, states, steps) && i < j < |states|
    requires Completes(parse, states[i], steps[i], states[i + 1])
    requires f in steps[i].files && Whole(f, states[i].world[f.path].data)
    ensures AllCounted(Calls(parse, Complete(states[i].world[f.path].data)), states[j].filed)
  {
    RunIsSafe(parse, states, steps, i);
    RenamedSafe(parse, states[i], steps[i], states[i + 1]);
    RunGrows(parse, states, steps, i + 1, j);
  }

  /** The first state of a Machine that has never ingested anything. */
  lemma NewMachineIsSafe(parse: Parser, world: map<string, Content>)
    ensures Safe(parse, Sys(None, map[], map[], world))
  {
  }

  // ---- what stops a pass ----

  predicate RaisesOn(rd: Reader, c: Cursor, f: File) {
    f.size != StartOffset(c, f) && f.data.Some? && AnyRaises(rd, Complete(Tail(f.data.value, StartOffset(c, f))), c.seen)
  }

  ghost predicate SomeRaises(rd: Reader, cursor: map<string, Cursor>, files: seq<File>) {
    exists f :: f in files && RaisesOn(rd, Lookup(cursor, Key(f.path)), f)
  }

  predicate DistinctKeys(files: seq<File>) {
    forall i, j :: 0 <= i < j < |files| ==> Key(files[i].path) != Key(files[j].path)
  }

  lemma DistinctTail(files: seq<File>)
    requires files != [] && DistinctKeys(files)
    ensures DistinctKeys(files[1..]) && forall g :: g in files[1..] ==> Key(g.path) != Key(files[0].path)
  {
    var rest := files[1..];
    assert forall j :: 0 <= j < |rest| ==> rest[j] == files[j + 1];
  }

  lemma SomeRaisesTail(rd: Reader, cursor: map<string, Cursor>, files: seq<File>, c: Cursor)
    requires files != [] && DistinctKeys(files)
    requires !RaisesOn(rd, Lookup(cursor, Key(files[0].path)), files[0])
    ensures SomeRaises(rd, cursor, files) == SomeRaises(rd, cursor, files[1..])
    ensures SomeRaises(rd, cursor, files) == SomeRaises(rd, cursor[Key(files[0].path) := c], files[1..])
  {
    var f, rest := files[0], files[1..];
    DistinctTail(files);
    hide RaisesOn, Key;
    assert files == [f] + rest;
    var cursor' := cursor[Key(f.path) := c];
    assert forall g :: g in rest ==> Lookup(cursor', Key(g.path)) == Lookup(cursor, Key(g.path));
  }

  /** The transcripts stop a pass if and only if one it opens has a new complete line it cannot
      read for an id, or a call that is new and whose row cannot be made. */
  lemma {:induction false} PassRaisesIff(rd: Reader, cursor: map<string, Cursor>, files: seq<File>)
    requires DistinctKeys(files)
    ensures PassFiles(rd, cursor, files).PassRaised? <==> SomeRaises(rd, cursor, files)
    decreases |files|
  {
    if files != [] {
      var f, rest := files[0], files[1..];
      var c := Lookup(cursor, Key(f.path));
      DistinctTail(files);
      hide SomeRaises, DistinctKeys, Key, StartOffset, Complete, Calls, Fresh, AnyRaises;
      if f.size != StartOffset(c, f) && f.data.None? {
        SomeRaisesTail(rd, cursor, files, c);
        PassRaisesIff(rd, cursor, rest);
      } else if PassFile(rd, c, f).Scanned? {
        var c' := PassFile(rd, c, f).cursor;
        SomeRaisesTail(rd, cursor, files, c');
        PassRaisesIff(rd, cursor[Key(f.path) := c'], rest);
      } else {
        HeadRaises(rd, cursor, files);
      }
    }
  }

  /** A pass writes nothing if and only if the session files cannot be read, or some transcript
      stops it. */
  lemma WholePassRaisesIff(env: Env, cursor: map<string, Cursor>, files: seq<File>)
    requires DistinctKeys(files)
    ensures WholePass(env, cursor, files).PassRaised? <==> !env.sessionsRead || SomeRaises(env.reader, cursor, files)
  {
    hide SomeRaises, DistinctKeys, PassFiles;
    PassRaisesIff(env.reader, cursor, files);
  }

  lemma HeadRaises(rd: Reader, cursor: map<string, Cursor>, files: seq<File>)
    requires files != [] && RaisesOn(rd, Lookup(cursor, Key(files[0].path)), files[0])
    ensures SomeRaises(rd, cursor, files)
  {
    assert files[0] in files;
  }
}
