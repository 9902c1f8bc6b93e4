/**
 What the cache file says about the sessions behind it. A session loads the file, drops the
 entries of tests outside its items (`src/pipeline/transitions/ready.rs`), merges and records
 what it ran (`finalize` in `src/pipeline/helpers.rs`) and saves only if it marked the cache dirty.
 */
module CacheHistory {
  import opened Options
  import opened TimingCache

  // What one session selected and what it ran, and whether collecting changed the module cache,
  // which is saved in the same file under the same flag.
  datatype Session = Session(items: seq<string>, run: Run, recollected: bool)

  type History = seq<Session>

  type Entries = map<string, CacheEntry>

  // ── One session ───────────────────────────────────────────────────────────────────────

  function Selected(e: Option<CacheEntry>, items: seq<string>, id: string): Option<CacheEntry> {
    if id in items then e else None
  }

  function AfterSession(e: Option<CacheEntry>, s: Session, id: string, maxAge: U32): Option<CacheEntry> {
    AfterRecord(AfterMerge(Selected(e, s.items, id), s.run, id, maxAge), s.run, id)
  }

  ghost predicate Steps(before: Entries, after: Entries, s: Session, maxAge: U32) {
    forall id :: Lookup(after, id) == AfterSession(Lookup(before, id), s, id, maxAge)
  }

  // The session takes some test's entry away.
  ghost predicate Loses(before: Entries, s: Session, maxAge: U32) {
    exists id :: id in before && AfterSession(Lookup(before, id), s, id, maxAge).None?
  }

  // What marks the cache dirty: new or pruned modules, anything run, an entry lost.
  ghost predicate Dirties(before: Entries, s: Session, maxAge: U32) {
    s.recollected || s.run != [] || Loses(before, s, maxAge)
  }

  /** One process. It saves exactly if it marks the cache dirty; otherwise the file
      stays as it was, and the ageing is forgotten. */
  method RunSession(disk: Entries, s: Session, maxAge: U32) returns (saved: bool, disk': Entries)
    ensures saved <==> Dirties(disk, s, maxAge)
    ensures saved ==> Steps(disk, disk', s, maxAge)
    ensures !saved ==> disk' == disk
  {
    var cache := new TestCache(disk);
    cache.dirty := s.recollected;
    cache.Invalidate(s.items);
    ghost var selected := cache.timings;
    cache.MergeTimings(s.run, maxAge);
    ghost var merged := cache.timings;
    cache.RecordTimingOutcomes(s.run);
    SessionSteps(disk, selected, merged, cache.timings, s, maxAge);
    saved := cache.dirty;
    disk' := if saved then cache.timings else disk;
    if s.run == [] {
      IdleSessionLoses(disk, selected, merged, cache.timings, s, maxAge);
    }
  }

  // With nothing run, an entry is lost to selection or to ageing.
  lemma IdleSessionLoses(disk: Entries, selected: Entries, merged: Entries, recorded: Entries, s: Session, maxAge: U32)
    requires s.run == [] && Steps(disk, recorded, s, maxAge) && recorded.Keys == merged.Keys
    requires forall id :: Lookup(selected, id) == Selected(Lookup(disk, id), s.items, id)
    requires forall id :: Lookup(merged, id) == AfterMerge(Lookup(selected, id), s.run, id, maxAge)
    ensures Loses(disk, s, maxAge) <==> (exists id :: id in disk && id !in s.items) || merged.Keys != selected.Keys
  {
    forall id ensures id in disk && AfterSession(Lookup(disk, id), s, id, maxAge).None? <==> id in disk && id !in merged.Keys {
      assert Lookup(recorded, id) == AfterSession(Lookup(disk, id), s, id, maxAge);
      assert id in recorded.Keys <==> Lookup(recorded, id).Some?;
    }
    forall id ensures id in merged.Keys ==> id in selected.Keys {
      assert Lookup(merged, id) == Aged(Lookup(selected, id), maxAge);
    }
    forall id ensures id in selected.Keys <==> id in disk && id in s.items {
      assert id in selected.Keys <==> Lookup(selected, id).Some?;
    }
    if id :| id in disk && id !in merged.Keys {
      assert id !in s.items || id in selected.Keys;
    }
    if merged.Keys != selected.Keys {
      var id :| id in selected.Keys && id !in merged.Keys;
      assert id in disk;
    }
    if id :| id in disk && id !in s.items {
      assert id !in selected.Keys;
    }
  }

  lemma SessionSteps(disk: Entries, selected: Entries, merged: Entries, recorded: Entries, s: Session, maxAge: U32)
    requires forall id :: Lookup(selected, id) == Selected(Lookup(disk, id), s.items, id)
    requires forall id :: Lookup(merged, id) == AfterMerge(Lookup(selected, id), s.run, id, maxAge)
    requires RecordedUpTo(merged, recorded, s.run)
    ensures Steps(disk, recorded, s, maxAge)
  {
  }

  // ── Any number of sessions ────────────────────────────────────────────────────────────

  // The entry of one test after sessions that all saved.
  function EntryAfter(h: History, id: string, maxAge: U32): Option<CacheEntry> {
    if h == [] then None else AfterSession(EntryAfter(h[..|h| - 1], id, maxAge), h[|h| - 1], id, maxAge)
  }

  // Session `j` is the last that ran the test.
  ghost predicate LastRunAt(h: History, id: string, j: nat) {
    j < |h| && Executed(h[j].run, id) && forall k | j < k < |h| :: !Executed(h[k].run, id)
  }

  // Every later session had the test among its items.
  ghost predicate KeptSince(h: History, id: string, j: nat) {
    forall k | j < k < |h| :: id in h[k].items
  }

  /** The test has an entry: some session ran it, every session since had it among its items,
      and there were no more of those than `maxAge`, which the largest `maxAge` never enforces. */
  ghost predicate Remembered(h: History, id: string, maxAge: U32) {
    exists j: nat :: LastRunAt(h, id, j) && KeptSince(h, id, j) && (maxAge == U32_MAX || |h| - 1 - j <= maxAge)
  }

  // ── When the entry was last inserted ──────────────────────────────────────────────────

  // Session `k` finds the entry in the cache after selecting its items.
  ghost predicate Found(h: History, id: string, maxAge: U32, k: nat)
    requires k < |h|
  {
    Remembered(h[..k], id, maxAge) && id in h[k].items
  }

  /** Session `i` inserted the entry, and every later one found it. */
  ghost predicate InsertedAt(h: History, id: string, maxAge: U32, i: nat) {
    && i < |h| && Executed(h[i].run, id) && !Found(h, id, maxAge, i)
    && forall k | i < k < |h| :: Found(h, id, maxAge, k)
  }

  function FlakyFrom(h: History, id: string, i: nat): nat {
    if |h| <= i then 0 else FlakyFrom(h[..|h| - 1], id, i) + FlakyOf(h[|h| - 1].run, id)
  }

  // ── The cache agrees with the history ─────────────────────────────────────────────────

  lemma LastRunStep(h: History, id: string, j: nat)
    requires h != []
    ensures LastRunAt(h, id, j) <==>
      if Executed(h[|h| - 1].run, id) then j == |h| - 1 else LastRunAt(h[..|h| - 1], id, j)
  {
    var n := |h| - 1;
    var init := h[..n];
    assert forall k | 0 <= k < n :: init[k] == h[k];
    if LastRunAt(h, id, j) && !Executed(h[n].run, id) {
      assert LastRunAt(init, id, j);
    }
    if LastRunAt(h, id, j) && j < n {
      assert !Executed(h[n].run, id);
    }
  }

  lemma KeptStep(h: History, id: string, j: nat)
    requires h != [] && j < |h| - 1
    ensures KeptSince(h, id, j) <==> KeptSince(h[..|h| - 1], id, j) && id in h[|h| - 1].items
  {
    var init := h[..|h| - 1];
    assert forall k | 0 <= k < |init| :: init[k] == h[k];
  }

  lemma RememberedStep(h: History, id: string, maxAge: U32)
    requires h != []
    ensures Executed(h[|h| - 1].run, id) ==> Remembered(h, id, maxAge)
    ensures !Executed(h[|h| - 1].run, id) && Remembered(h, id, maxAge) ==> Found(h, id, maxAge, |h| - 1)
  {
    var n := |h| - 1;
    if Executed(h[n].run, id) {
      assert LastRunAt(h, id, n) && KeptSince(h, id, n);
    } else if Remembered(h, id, maxAge) {
      var j: nat :| LastRunAt(h, id, j) && KeptSince(h, id, j) && (maxAge == U32_MAX || |h| - 1 - j <= maxAge);
      LastRunStep(h, id, j);
      KeptStep(h, id, j);
    }
  }

  // A remembered entry was inserted by some session.
  lemma {:induction false} SomeInsertion(h: History, id: string, maxAge: U32) returns (i: nat)
    requires Remembered(h, id, maxAge)
    ensures InsertedAt(h, id, maxAge, i)
    decreases h
  {
    var n := |h| - 1;
    RememberedStep(h, id, maxAge);
    if Found(h, id, maxAge, n) {
      i := SomeInsertion(h[..n], id, maxAge);
      InsertedStep(h, id, maxAge, i);
    } else {
      i := n;
    }
  }

  lemma InsertedStep(h: History, id: string, maxAge: U32, i: nat)
    requires h != [] && i < |h| - 1
    ensures InsertedAt(h, id, maxAge, i) <==> InsertedAt(h[..|h| - 1], id, maxAge, i) && Found(h, id, maxAge, |h| - 1)
  {
    var init := h[..|h| - 1];
    assert forall k | 0 <= k < |init| :: init[k] == h[k] && init[..k] == h[..k];
    assert forall k | 0 <= k < |init| :: Found(init, id, maxAge, k) == Found(h, id, maxAge, k);
  }

  // The entry of a test last run by session `j` and inserted by session `i`.
  function EntryOf(h: History, id: string, j: nat, i: nat): CacheEntry
    requires j < |h| && Executed(h[j].run, id)
  {
    CacheEntry(LastOf(h[j].run, id).duration, (|h| - 1 - j) % 0x1_0000_0000, Some(LastOf(h[j].run, id).outcome),
               if FlakyFrom(h, id, i) < 0x1_0000_0000 then FlakyFrom(h, id, i) else 0xFFFF_FFFF)
  }

  ghost predicate Agrees(e: CacheEntry, h: History, id: string, maxAge: U32) {
    forall j: nat, i: nat | LastRunAt(h, id, j) && InsertedAt(h, id, maxAge, i) ::
      e == EntryOf(h, id, j, i)
  }

  /** After any sessions: a test has an entry exactly if it is remembered; its age counts the
      sessions since its last run, its duration and outcome are that run's, and its flaky count
      covers the sessions since it was last inserted. */
  lemma {:induction false} CacheIsHistory(h: History, id: string, maxAge: U32)
    ensures EntryAfter(h, id, maxAge).Some? <==> Remembered(h, id, maxAge)
    ensures EntryAfter(h, id, maxAge).Some? ==> Agrees(EntryAfter(h, id, maxAge).value, h, id, maxAge)
    decreases h
  {
    if h == [] {
    } else {
      CacheIsHistory(h[..|h| - 1], id, maxAge);
      if Executed(h[|h| - 1].run, id) {
        AfterRunning(h, id, maxAge);
      } else {
        AfterIdling(h, id, maxAge);
      }
    }
  }

  lemma AfterRunning(h: History, id: string, maxAge: U32)
    requires h != [] && Executed(h[|h| - 1].run, id)
    requires var e := EntryAfter(h[..|h| - 1], id, maxAge);
             (e.Some? <==> Remembered(h[..|h| - 1], id, maxAge)) && (e.Some? ==> Agrees(e.value, h[..|h| - 1], id, maxAge))
    ensures EntryAfter(h, id, maxAge).Some? && Remembered(h, id, maxAge)
    ensures Agrees(EntryAfter(h, id, maxAge).value, h, id, maxAge)
  {
    var n := |h| - 1;
    RememberedStep(h, id, maxAge);
    forall j: nat, i: nat | LastRunAt(h, id, j) && InsertedAt(h, id, maxAge, i)
      ensures EntryAfter(h, id, maxAge).value == EntryOf(h, id, j, i)
    {
      LastRunStep(h, id, j);
      RunningCounts(h, id, maxAge, i, Selected(EntryAfter(h[..n], id, maxAge), h[n].items, id));
      RanEntry(EntryAfter(h[..n], id, maxAge), h[n], id, maxAge);
    }
  }

  // What a session that runs the test makes of its entry.
  lemma RanEntry(e: Option<CacheEntry>, s: Session, id: string, maxAge: U32)
    requires Executed(s.run, id)
    ensures
      var found, t := Selected(e, s.items, id), LastOf(s.run, id);
      AfterSession(e, s, id, maxAge) == Some(CacheEntry(t.duration, 0, Some(t.outcome),
        Saturate((if found.Some? then found.value.flakyCount else 0) + FlakyOf(s.run, id))))
  {
  }

  // The flaky count of the entry a session finds, or starts.
  lemma RunningCounts(h: History, id: string, maxAge: U32, i: nat, found: Option<CacheEntry>)
    requires h != [] && InsertedAt(h, id, maxAge, i)
    requires found.Some? <==> Found(h, id, maxAge, |h| - 1)
    requires found.Some? ==> Agrees(found.value, h[..|h| - 1], id, maxAge)
    ensures Saturate((if found.Some? then found.value.flakyCount else 0) + FlakyOf(h[|h| - 1].run, id)) == Saturate(FlakyFrom(h, id, i))
  {
    var n := |h| - 1;
    if i < n {
      InsertedStep(h, id, maxAge, i);
      var j := SomeLastRun(h[..n], id, maxAge);
      assert found.value == EntryOf(h[..n], id, j, i);
    } else {
      assert FlakyFrom(h[..n], id, i) == 0;
    }
  }

  lemma SomeLastRun(h: History, id: string, maxAge: U32) returns (j: nat)
    requires Remembered(h, id, maxAge)
    ensures LastRunAt(h, id, j)
  {
    j :| LastRunAt(h, id, j);
  }

  // A session that does not run the test makes its entry one session older.
  lemma IdleEntry(h: History, id: string, maxAge: U32, j: nat, i: nat)
    requires h != [] && !Executed(h[|h| - 1].run, id) && LastRunAt(h, id, j) && InsertedAt(h, id, maxAge, i)
    ensures LastRunAt(h[..|h| - 1], id, j) && InsertedAt(h[..|h| - 1], id, maxAge, i)
    ensures var e := EntryOf(h[..|h| - 1], id, j, i); EntryOf(h, id, j, i) == e.(age := Older(e.age))
  {
    LastRunStep(h, id, j);
    InsertedStep(h, id, maxAge, i);
    OlderCounts(|h| - 2 - j);
    NoFlakyUnlessRun(h[|h| - 1].run, id);
  }

  lemma IdleRemembers(h: History, init: History, id: string, maxAge: U32, age: nat)
    requires h != [] && init == h[..|h| - 1] && !Executed(h[|h| - 1].run, id) && Found(h, id, maxAge, |h| - 1)
    requires forall j: nat | LastRunAt(init, id, j) :: age == (|h| - 2 - j) % (U32_MAX + 1)
    ensures age <= U32_MAX && (Remembered(h, id, maxAge) <==> Older(age) <= maxAge)
  {
    var j: nat :| LastRunAt(init, id, j) && KeptSince(init, id, j) && (maxAge == U32_MAX || |init| - 1 - j <= maxAge);
    LastRunStep(h, id, j);
    KeptStep(h, id, j);
    OnlyLastRun(h, id, j);
    if maxAge == U32_MAX {
      assert Remembered(h, id, maxAge);
    }
  }

  lemma IdleAgrees(h: History, init: History, id: string, maxAge: U32, e: CacheEntry)
    requires h != [] && init == h[..|h| - 1] && !Executed(h[|h| - 1].run, id) && Found(h, id, maxAge, |h| - 1)
    requires Agrees(e, init, id, maxAge)
    ensures Agrees(e.(age := Older(e.age)), h, id, maxAge)
    ensures Remembered(h, id, maxAge) <==> Older(e.age) <= maxAge
  {
    forall j: nat, i: nat | LastRunAt(h, id, j) && InsertedAt(h, id, maxAge, i)
      ensures e.(age := Older(e.age)) == EntryOf(h, id, j, i)
    {
      IdleEntry(h, id, maxAge, j, i);
    }
    var i := SomeInsertion(init, id, maxAge);
    forall j: nat | LastRunAt(init, id, j) ensures e.age == (|h| - 2 - j) % (U32_MAX + 1) {
      assert e == EntryOf(init, id, j, i);
    }
    IdleRemembers(h, init, id, maxAge, e.age);
  }

  lemma AfterIdling(h: History, id: string, maxAge: U32)
    requires h != [] && !Executed(h[|h| - 1].run, id)
    requires var e := EntryAfter(h[..|h| - 1], id, maxAge);
             (e.Some? <==> Remembered(h[..|h| - 1], id, maxAge)) && (e.Some? ==> Agrees(e.value, h[..|h| - 1], id, maxAge))
    ensures EntryAfter(h, id, maxAge).Some? <==> Remembered(h, id, maxAge)
    ensures EntryAfter(h, id, maxAge).Some? ==> Agrees(EntryAfter(h, id, maxAge).value, h, id, maxAge)
  {
    var init := h[..|h| - 1];
    var e := EntryAfter(init, id, maxAge);
    RememberedStep(h, id, maxAge);
    if Found(h, id, maxAge, |h| - 1) {
      IdleAgrees(h, init, id, maxAge, e.value);
    }
  }

  lemma OnlyLastRun(h: History, id: string, j: nat)
    requires LastRunAt(h, id, j)
    ensures forall k: nat | LastRunAt(h, id, k) :: k == j
  {
  }

  lemma OlderCounts(n: nat)
    ensures (n + 1) % (U32_MAX + 1) == Older(n % (U32_MAX + 1))
  {
  }

  /** `last_failed_ids` is exactly the remembered tests whose last run failed. */
  lemma LastFailedIsHistory(h: History, id: string, maxAge: U32, timings: Entries)
    requires Lookup(timings, id) == EntryAfter(h, id, maxAge)
    ensures id in LastFailed(timings) <==>
      Remembered(h, id, maxAge) && exists j: nat :: LastRunAt(h, id, j) && LastOf(h[j].run, id).outcome in {Failed, Error, Timeout}
  {
    CacheIsHistory(h, id, maxAge);
    if Remembered(h, id, maxAge) {
      var i := SomeInsertion(h, id, maxAge);
      var j := SomeLastRun(h, id, maxAge);
      OnlyLastRun(h, id, j);
      assert timings[id].lastOutcome == Some(LastOf(h[j].run, id).outcome);
    }
  }

  // ── The file ──────────────────────────────────────────────────────────────────────────

  // A file as these sessions leave it loses an entry to the next one.
  ghost predicate LosesAfter(saved: History, s: Session, maxAge: U32) {
    exists id :: EntryAfter(saved, id, maxAge).Some? && AfterSession(EntryAfter(saved, id, maxAge), s, id, maxAge).None?
  }

  /** The sessions of a history that save: those that change the module cache, that run something,
      or that lose an entry of the file as the saving ones before left it. */
  ghost function SavedOf(h: History, maxAge: U32): History {
    if h == [] then []
    else
      var saved, s := SavedOf(h[..|h| - 1], maxAge), h[|h| - 1];
      if s.recollected || s.run != [] || LosesAfter(saved, s, maxAge) then saved + [s] else saved
  }

  ghost predicate Tells(disk: Entries, saved: History, maxAge: U32) {
    forall id :: Lookup(disk, id) == EntryAfter(saved, id, maxAge)
  }

  // The entry of one test in the file after these sessions.
  ghost function InFile(h: History, id: string, maxAge: U32): Option<CacheEntry> {
    EntryAfter(SavedOf(h, maxAge), id, maxAge)
  }

  /** The file, session after session, is what the sessions that save say. */
  method Replay(h: History, maxAge: U32) returns (disk: Entries)
    ensures Tells(disk, SavedOf(h, maxAge), maxAge)
  {
    disk := map[];
    for i := 0 to |h|
      invariant Tells(disk, SavedOf(h[..i], maxAge), maxAge)
    {
      ghost var saved := SavedOf(h[..i], maxAge);
      var ok, next := RunSession(disk, h[i], maxAge);
      LosesTold(disk, saved, h[i], maxAge);
      assert h[..i + 1][..i] == h[..i];
      if ok {
        SavedStep(saved, h[i], disk, next, maxAge);
      }
      disk := next;
    }
    assert h[..|h|] == h;
  }

  lemma LosesTold(disk: Entries, saved: History, s: Session, maxAge: U32)
    requires Tells(disk, saved, maxAge)
    ensures Loses(disk, s, maxAge) <==> LosesAfter(saved, s, maxAge)
  {
    forall id ensures id in disk <==> EntryAfter(saved, id, maxAge).Some? {
      assert Lookup(disk, id) == EntryAfter(saved, id, maxAge);
    }
    if id :| id in disk && AfterSession(Lookup(disk, id), s, id, maxAge).None? {
      assert EntryAfter(saved, id, maxAge).Some? && AfterSession(EntryAfter(saved, id, maxAge), s, id, maxAge).None?;
    }
    if id :| EntryAfter(saved, id, maxAge).Some? && AfterSession(EntryAfter(saved, id, maxAge), s, id, maxAge).None? {
      assert id in disk;
    }
  }

  lemma SavedStep(saved: History, s: Session, disk: Entries, disk': Entries, maxAge: U32)
    requires Tells(disk, saved, maxAge) && Steps(disk, disk', s, maxAge)
    ensures Tells(disk', saved + [s], maxAge)
  {
    assert (saved + [s])[..|saved|] == saved;
  }

  lemma {:induction false} SavedFewer(h: History, maxAge: U32)
    ensures |SavedOf(h, maxAge)| <= |h|
  {
    if h == [] {
    } else {
      SavedFewer(h[..|h| - 1], maxAge);
    }
  }

  lemma SavedLast(h: History, maxAge: U32)
    requires h != []
    ensures var init, s := h[..|h| - 1], h[|h| - 1];
            SavedOf(h, maxAge) == h <==> SavedOf(init, maxAge) == init && (s.recollected || s.run != [] || LosesAfter(init, s, maxAge))
  {
    var init, s := h[..|h| - 1], h[|h| - 1];
    SavedFewer(init, maxAge);
    assert h == init + [s];
    if SavedOf(h, maxAge) == h {
      assert SavedOf(init, maxAge) == h[..|h| - 1];
    }
  }

  // Every session saves exactly if each of them has something to save.
  lemma {:induction false} AllSaved(h: History, maxAge: U32)
    ensures SavedOf(h, maxAge) == h <==> forall k | 0 <= k < |h| :: Saves(h, k, maxAge)
  {
    if h == [] {
    } else {
      var n := |h| - 1;
      var init := h[..n];
      AllSaved(init, maxAge);
      SavedLast(h, maxAge);
      forall k | 0 <= k < n ensures Saves(init, k, maxAge) == Saves(h, k, maxAge) {
        assert init[..k] == h[..k];
      }
      assert Saves(h, n, maxAge) <==> h[n].recollected || h[n].run != [] || LosesAfter(init, h[n], maxAge);
    }
  }

  // Session `k` changes the module cache, runs something, or loses an entry of what all sessions
  // before it left.
  ghost predicate Saves(h: History, k: nat, maxAge: U32)
    requires k < |h|
  {
    h[k].recollected || h[k].run != [] || LosesAfter(h[..k], h[k], maxAge)
  }

  // ── The file against the whole history ────────────────────────────────────────────────

  // How many sessions after session `j` saved.
  ghost function SavedSince(h: History, j: nat, maxAge: U32): nat
    requires j < |h|
    decreases h
  {
    if j == |h| - 1 then 0
    else SavedSince(h[..|h| - 1], j, maxAge) + if SavedOf(h, maxAge) != SavedOf(h[..|h| - 1], maxAge) then 1 else 0
  }

  lemma {:induction false} SavedSinceBounded(h: History, j: nat, maxAge: U32)
    requires j < |h|
    ensures SavedSince(h, j, maxAge) <= |h| - 1 - j
    decreases h
  {
    if j == |h| - 1 {
    } else {
      SavedSinceBounded(h[..|h| - 1], j, maxAge);
    }
  }

  // What the file must hold of a test last run by session `j`, its flaky count aside.
  ghost predicate TellsRun(e: CacheEntry, h: History, id: string, j: nat, maxAge: U32)
    requires j < |h| && Executed(h[j].run, id)
  {
    && e.duration == LastOf(h[j].run, id).duration && e.lastOutcome == Some(LastOf(h[j].run, id).outcome)
    && e.age == SavedSince(h, j, maxAge) % (U32_MAX + 1)
  }

  // Session `j` ran the test last, and it was selected ever since.
  ghost predicate Current(h: History, id: string, j: nat) {
    LastRunAt(h, id, j) && KeptSince(h, id, j)
  }

  ghost predicate WithinLimit(h: History, j: nat, maxAge: U32)
    requires j < |h|
  {
    maxAge == U32_MAX || SavedSince(h, j, maxAge) <= maxAge
  }

  /** A test is in the file exactly if some session ran it, every session since had it among its
      items, and no more than `maxAge` of those saved; its age counts the saving sessions since,
      its duration and outcome are the last run's. The largest `maxAge` is never enforced, as the
      age wraps around. */
  ghost predicate FileRight(h: History, id: string, maxAge: U32) {
    && (InFile(h, id, maxAge).Some? <==> exists j: nat :: Current(h, id, j) && WithinLimit(h, j, maxAge))
    && forall j: nat | Current(h, id, j) && InFile(h, id, maxAge).Some? :: TellsRun(InFile(h, id, maxAge).value, h, id, j, maxAge)
  }

  /** The file after any sessions, whether they saved or not. */
  lemma {:induction false} FileIsHistory(h: History, id: string, maxAge: U32)
    ensures FileRight(h, id, maxAge)
    decreases h
  {
    if h == [] {
    } else {
      FileIsHistory(h[..|h| - 1], id, maxAge);
      if Executed(h[|h| - 1].run, id) {
        FileAfterRunning(h, id, maxAge);
      } else {
        FileAfterIdling(h, id, maxAge);
      }
    }
  }

  lemma SavedGrows(h: History, maxAge: U32)
    requires h != []
    ensures
      var init, s := h[..|h| - 1], h[|h| - 1];
      var saved := SavedOf(init, maxAge);
      if s.recollected || s.run != [] || LosesAfter(saved, s, maxAge)
      then SavedOf(h, maxAge) == saved + [s] && SavedOf(h, maxAge) != saved
      else SavedOf(h, maxAge) == saved
  {
    var saved, s := SavedOf(h[..|h| - 1], maxAge), h[|h| - 1];
    assert |saved + [s]| != |saved|;
  }

  lemma InFileStep(h: History, id: string, maxAge: U32)
    requires h != []
    ensures
      var init, s := h[..|h| - 1], h[|h| - 1];
      InFile(h, id, maxAge) ==
      if SavedOf(h, maxAge) == SavedOf(init, maxAge) then InFile(init, id, maxAge)
      else AfterSession(InFile(init, id, maxAge), s, id, maxAge)
  {
    var saved, s := SavedOf(h[..|h| - 1], maxAge), h[|h| - 1];
    SavedGrows(h, maxAge);
    assert (saved + [s])[..|saved|] == saved;
  }

  lemma FileAfterRunning(h: History, id: string, maxAge: U32)
    requires h != [] && Executed(h[|h| - 1].run, id)
    ensures InFile(h, id, maxAge).Some? && Current(h, id, |h| - 1) && WithinLimit(h, |h| - 1, maxAge)
    ensures forall j: nat | Current(h, id, j) :: TellsRun(InFile(h, id, maxAge).value, h, id, j, maxAge)
  {
    var n := |h| - 1;
    assert h[n].run != [];
    SavedGrows(h, maxAge);
    InFileStep(h, id, maxAge);
    RanEntry(InFile(h[..n], id, maxAge), h[n], id, maxAge);
    forall j: nat | Current(h, id, j) ensures j == n {
      LastRunStep(h, id, j);
    }
  }

  // What a session that does not run the test makes of its entry, if it saves.
  lemma IdleSession(e: Option<CacheEntry>, s: Session, id: string, maxAge: U32)
    requires !Executed(s.run, id)
    ensures AfterSession(e, s, id, maxAge) == if id in s.items then Aged(e, maxAge) else None
  {
  }

  // A session that does not save leaves every entry it would take away, and there is none.
  lemma UnsavedKeeps(h: History, id: string, maxAge: U32)
    requires h != [] && SavedOf(h, maxAge) == SavedOf(h[..|h| - 1], maxAge) && InFile(h[..|h| - 1], id, maxAge).Some?
    ensures AfterSession(InFile(h[..|h| - 1], id, maxAge), h[|h| - 1], id, maxAge).Some?
  {
    SavedGrows(h, maxAge);
  }

  lemma CurrentStep(h: History, id: string, j: nat)
    requires h != [] && !Executed(h[|h| - 1].run, id)
    ensures Current(h, id, j) <==> Current(h[..|h| - 1], id, j) && id in h[|h| - 1].items
  {
    LastRunStep(h, id, j);
    if j < |h| - 1 {
      KeptStep(h, id, j);
    }
  }

  lemma FileAfterIdling(h: History, id: string, maxAge: U32)
    requires h != [] && !Executed(h[|h| - 1].run, id)
    requires FileRight(h[..|h| - 1], id, maxAge)
    ensures FileRight(h, id, maxAge)
  {
    var init := h[..|h| - 1];
    var e := InFile(init, id, maxAge);
    forall j: nat ensures Current(h, id, j) <==> Current(init, id, j) && id in h[|h| - 1].items {
      CurrentStep(h, id, j);
    }
    if j: nat :| Current(init, id, j) {
      forall k: nat | Current(init, id, k) ensures k == j {
        OnlyLastRun(init, id, j);
      }
      IdleAt(h, id, maxAge, j);
    } else {
      assert e.None?;
      InFileStep(h, id, maxAge);
      IdleSession(e, h[|h| - 1], id, maxAge);
    }
  }

  // The same for the one session that ran the test last.
  lemma IdleAt(h: History, id: string, maxAge: U32, j: nat)
    requires h != [] && !Executed(h[|h| - 1].run, id) && Current(h[..|h| - 1], id, j)
    requires InFile(h[..|h| - 1], id, maxAge).Some? <==> WithinLimit(h[..|h| - 1], j, maxAge)
    requires InFile(h[..|h| - 1], id, maxAge).Some? ==> TellsRun(InFile(h[..|h| - 1], id, maxAge).value, h[..|h| - 1], id, j, maxAge)
    ensures InFile(h, id, maxAge).Some? <==> id in h[|h| - 1].items && WithinLimit(h, j, maxAge)
    ensures InFile(h, id, maxAge).Some? ==> TellsRun(InFile(h, id, maxAge).value, h, id, j, maxAge)
  {
    var init, s := h[..|h| - 1], h[|h| - 1];
    var e := InFile(init, id, maxAge);
    InFileStep(h, id, maxAge);
    IdleSession(e, s, id, maxAge);
    if SavedOf(h, maxAge) == SavedOf(init, maxAge) {
      assert SavedSince(h, j, maxAge) == SavedSince(init, j, maxAge);
      if e.Some? {
        UnsavedKeeps(h, id, maxAge);
      }
    } else {
      OlderCounts(SavedSince(init, j, maxAge));
      assert SavedSince(h, j, maxAge) == SavedSince(init, j, maxAge) + 1;
    }
  }

  // How many sessions after session `j` did not save.
  ghost function UnsavedSince(h: History, j: nat, maxAge: U32): (n: nat)
    requires j < |h|
  {
    SavedSinceBounded(h, j, maxAge);
    |h| - 1 - j - SavedSince(h, j, maxAge)
  }

  // What a test's entry says of its presence and its age.
  function AgeOf(e: Option<CacheEntry>): Option<U32> {
    if e.Some? then Some(e.value.age) else None
  }

  lemma AllSavedAge(h: History, id: string, maxAge: U32, j: nat)
    requires Current(h, id, j)
    ensures AgeOf(EntryAfter(h, id, maxAge))
         == AgeFrom(|h| - 1 - j, maxAge)
  {
    CacheIsHistory(h, id, maxAge);
    OnlyLastRun(h, id, j);
    if EntryAfter(h, id, maxAge).Some? {
      var i := SomeInsertion(h, id, maxAge);
      assert EntryAfter(h, id, maxAge).value == EntryOf(h, id, j, i);
    }
  }

  lemma FileAge(h: History, id: string, maxAge: U32, j: nat)
    requires Current(h, id, j)
    ensures AgeOf(InFile(h, id, maxAge))
         == AgeFrom(SavedSince(h, j, maxAge), maxAge)
  {
    FileIsHistory(h, id, maxAge);
    OnlyLastRun(h, id, j);
  }

  /** The file's age of a test falls short of the age all sessions would give it by the sessions
      since its last run that did not save. So the two agree exactly if there are none of those,
      if the file has forgotten the test too, or if as many as wrap the age around. */
  lemma FileFallsBehind(h: History, id: string, maxAge: U32, j: nat)
    requires Current(h, id, j)
    ensures EntryAfter(h, id, maxAge).Some? ==>
      InFile(h, id, maxAge).Some? &&
      EntryAfter(h, id, maxAge).value.age == (InFile(h, id, maxAge).value.age + UnsavedSince(h, j, maxAge)) % (U32_MAX + 1)
    ensures AgeOf(InFile(h, id, maxAge)) == AgeOf(EntryAfter(h, id, maxAge)) <==>
      || UnsavedSince(h, j, maxAge) == 0
      || (maxAge < U32_MAX && SavedSince(h, j, maxAge) > maxAge)
      || (maxAge == U32_MAX && UnsavedSince(h, j, maxAge) % (U32_MAX + 1) == 0)
  {
    AllSavedAge(h, id, maxAge, j);
    FileAge(h, id, maxAge, j);
    AgesAgree(SavedSince(h, j, maxAge), UnsavedSince(h, j, maxAge), maxAge);
  }

  // The age that `n` sessions leave, none if they are too many.
  function AgeFrom(n: nat, maxAge: U32): Option<U32> {
    if maxAge == U32_MAX || n <= maxAge then Some(n % (U32_MAX + 1)) else None
  }

  lemma AgesAgree(saved: nat, unsaved: nat, maxAge: U32)
    ensures AgeFrom(saved + unsaved, maxAge).Some? ==>
      AgeFrom(saved, maxAge).Some? && (saved + unsaved) % (U32_MAX + 1) == (saved % (U32_MAX + 1) + unsaved) % (U32_MAX + 1)
    ensures AgeFrom(saved, maxAge) == AgeFrom(saved + unsaved, maxAge) <==>
      unsaved == 0 || (maxAge < U32_MAX && saved > maxAge) || (maxAge == U32_MAX && unsaved % (U32_MAX + 1) == 0)
  {
    SumWraps(saved, unsaved);
  }

  lemma SumWraps(a: nat, b: nat)
    ensures (a + b) % (U32_MAX + 1) == (a % (U32_MAX + 1) + b) % (U32_MAX + 1)
    ensures (a + b) % (U32_MAX + 1) == a % (U32_MAX + 1) <==> b % (U32_MAX + 1) == 0
  {
  }

  // A test that was never run, or not selected since, is in neither.
  lemma NeitherWithoutRun(h: History, id: string, maxAge: U32)
    requires forall j: nat :: !Current(h, id, j)
    ensures EntryAfter(h, id, maxAge).None? && InFile(h, id, maxAge).None?
  {
    CacheIsHistory(h, id, maxAge);
    FileIsHistory(h, id, maxAge);
    if Remembered(h, id, maxAge) {
      var j: nat :| LastRunAt(h, id, j) && KeptSince(h, id, j);
      assert Current(h, id, j);
    }
  }

  /** `last_failed_ids`, read from the file after any sessions. */
  lemma LastFailedInFile(h: History, id: string, maxAge: U32, disk: Entries)
    requires Tells(disk, SavedOf(h, maxAge), maxAge)
    ensures id in LastFailed(disk) <==>
      exists j: nat :: Current(h, id, j) && WithinLimit(h, j, maxAge) && LastOf(h[j].run, id).outcome in {Failed, Error, Timeout}
  {
    assert Lookup(disk, id) == InFile(h, id, maxAge);
    FileIsHistory(h, id, maxAge);
    if j: nat :| Current(h, id, j) && WithinLimit(h, j, maxAge) {
      OnlyLastRun(h, id, j);
      assert TellsRun(disk[id], h, id, j, maxAge);
    }
  }

  // ── Forgotten ageing ──────────────────────────────────────────────────────────────────

  lemma RanOnce(id: string, maxAge: U32, x: string)
    ensures EntryAfter(Idle(id, 0, false), x, maxAge) == if x == id then Some(CacheEntry(1.0, 0, Some(Passed), 0)) else None
  {
    var h := Idle(id, 0, false);
    var s := h[0];
    assert h == [s] && h[..0] == [] && s.run[..0] == [];
    assert Of(s.run, x) == if x == id then [s.run[0]] else [];
    assert FlakyOf(s.run, x) == 0 && EntryAfter([], x, maxAge) == None;
    if x == id {
      RanEntry(None, s, x, maxAge);
    }
  }

  // The first session that only selects the test takes its entry away, or leaves it younger.
  lemma IdledOnce(id: string, maxAge: U32, x: string)
    ensures AfterSession(EntryAfter(Idle(id, 0, false), x, maxAge), Session([id], [], false), x, maxAge)
         == if x == id && maxAge >= 1 then Some(CacheEntry(1.0, 1, Some(Passed), 0)) else None
  {
    RanOnce(id, maxAge, x);
    assert !Executed([], x);
  }

  lemma NothingToLose(id: string, x: string)
    ensures EntryAfter(Idle(id, 1, false), x, 0) == None
  {
    var h := Idle(id, 1, false);
    assert h[..1] == Idle(id, 0, false) && h[1] == Session([id], [], false);
    IdledOnce(id, 0, x);
  }

  lemma IdleLoses(id: string, maxAge: U32)
    ensures LosesAfter(Idle(id, 0, false), Session([id], [], false), maxAge) <==> maxAge == 0
    ensures maxAge == 0 ==> !LosesAfter(Idle(id, 1, false), Session([id], [], false), maxAge)
  {
    RanOnce(id, maxAge, id);
    IdledOnce(id, maxAge, id);
    if x :| EntryAfter(Idle(id, 0, false), x, maxAge).Some? && AfterSession(EntryAfter(Idle(id, 0, false), x, maxAge), Session([id], [], false), x, maxAge).None? {
      RanOnce(id, maxAge, x);
      IdledOnce(id, maxAge, x);
    }
    if x :| EntryAfter(Idle(id, 1, false), x, 0).Some? {
      NothingToLose(id, x);
    }
  }

  // Which of these sessions save.
  lemma {:induction false} IdleSaved(id: string, n: nat, maxAge: U32)
    ensures SavedOf(Idle(id, n, false), maxAge) == Idle(id, if maxAge >= 1 || n == 0 then 0 else 1, false)
    decreases n
  {
    var h := Idle(id, n, false);
    if n == 0 {
      assert h[..0] == [] && h == [] + [h[0]];
    } else {
      assert h[..n] == Idle(id, n - 1, false) && h[n] == Session([id], [], false);
      IdleSaved(id, n - 1, maxAge);
      IdleLoses(id, maxAge);
      assert Idle(id, 0, false) + [h[n]] == Idle(id, 1, false);
    }
  }

  /** Sessions that run and collect nothing anew do not age the file. A test run once is in it with
      age 0 after any number of them, although each alone would make it 1; only with limit 0 does
      the first of them take the entry away. */
  lemma AgeingForgotten(id: string, n: nat, maxAge: U32, e: Option<CacheEntry>)
    requires e == EntryAfter(SavedOf(Idle(id, n, false), maxAge), id, maxAge)
    ensures e == if maxAge >= 1 || n == 0 then Some(CacheEntry(1.0, 0, Some(Passed), 0)) else None
    ensures maxAge >= 1 ==> AfterSession(e, Session([id], [], false), id, maxAge) == Some(CacheEntry(1.0, 1, Some(Passed), 0))
  {
    IdleSaved(id, n, maxAge);
    if maxAge >= 1 || n == 0 {
      RanOnce(id, maxAge, id);
      IdledOnce(id, maxAge, id);
    } else {
      NothingToLose(id, id);
    }
  }

  // ── The age limit ─────────────────────────────────────────────────────────────────────

  // What the limit promises: no entry outlives `maxAge` sessions without a run.
  ghost predicate Recent(h: History, id: string, maxAge: U32) {
    exists j: nat :: Current(h, id, j) && |h| - 1 - j <= maxAge
  }

  // A test run once and then only selected, `n` times, by sessions that collect anew or not.
  function Idle(id: string, n: nat, anew: bool): History {
    [Session([id], [TestTiming(id, 1.0, Passed)], true)] + seq(n, _ => Session([id], [], anew))
  }

  lemma IdleCurrent(id: string, n: nat, anew: bool)
    ensures Current(Idle(id, n, anew), id, 0)
  {
    var h := Idle(id, n, anew);
    assert h[0].run[..0] == [];
    assert Of(h[0].run, id) == [h[0].run[0]];
  }

  // The file never forgets a test before its time.
  lemma RecentInFile(h: History, id: string, maxAge: U32)
    requires Recent(h, id, maxAge)
    ensures InFile(h, id, maxAge).Some?
  {
    FileIsHistory(h, id, maxAge);
    var j: nat :| Current(h, id, j) && |h| - 1 - j <= maxAge;
    SavedSinceBounded(h, j, maxAge);
  }

  /** When a test outlives the limit: it is in the file although too many sessions passed,
      exactly if few enough of them saved, or if the limit is the largest. */
  lemma OutlivesLimit(h: History, id: string, maxAge: U32)
    ensures InFile(h, id, maxAge).Some? && !Recent(h, id, maxAge) <==>
      exists j: nat :: Current(h, id, j) && |h| - 1 - j > maxAge && WithinLimit(h, j, maxAge)
  {
    FileIsHistory(h, id, maxAge);
    if j: nat :| Current(h, id, j) {
      OnlyLastRun(h, id, j);
    }
  }

  lemma ZeroAged(e: CacheEntry)
    ensures e.age == 0 ==> Aged(Some(e), 0).None?
  {
  }

  // With limit 0 a session that does not run the test takes its entry away, and so saves.
  lemma ZeroLimit(h: History, id: string)
    requires InFile(h, id, 0).Some?
    ensures Recent(h, id, 0)
  {
    var n := |h| - 1;
    FileIsHistory(h, id, 0);
    var j: nat :| Current(h, id, j) && WithinLimit(h, j, 0);
    if j < n {
      var init := h[..n];
      assert SavedOf(h, 0) == SavedOf(init, 0);
      InFileStep(h, id, 0);
      CurrentStep(h, id, j);
      FileIsHistory(init, id, 0);
      UnsavedKeeps(h, id, 0);
      IdleSession(InFile(init, id, 0), h[n], id, 0);
      ZeroAged(InFile(init, id, 0).value);
    }
  }

  // A history of which every session saves and whose last run lies as far back as one likes.
  lemma {:induction false} AnewSaved(id: string, n: nat, maxAge: U32)
    ensures SavedOf(Idle(id, n, true), maxAge) == Idle(id, n, true)
    decreases n
  {
    var h := Idle(id, n, true);
    if n == 0 {
      assert h[..0] == [] && h == [] + [h[0]];
    } else {
      assert h[..n] == Idle(id, n - 1, true) && h[..n] + [h[n]] == h;
      AnewSaved(id, n - 1, maxAge);
    }
  }

  /** The limit is kept by the file after every history only if it is 0: at any other limit,
      sessions that save nothing do not count. After histories whose sessions all save it is kept
      exactly if it is below the largest 32-bit number, at which the age wraps around. */
  lemma AgeLimitKept(maxAge: U32)
    ensures (forall h: History, id :: InFile(h, id, maxAge).Some? <==> Recent(h, id, maxAge)) <==> maxAge == 0
    ensures (forall h: History, id | SavedOf(h, maxAge) == h :: InFile(h, id, maxAge).Some? <==> Recent(h, id, maxAge)) <==> maxAge < U32_MAX
  {
    if maxAge == 0 {
      forall h: History, id ensures InFile(h, id, maxAge).Some? <==> Recent(h, id, maxAge) {
        ZeroOrRecent(h, id);
      }
    } else {
      IdleOutlives("t", maxAge);
    }
    if maxAge < U32_MAX {
      forall h: History, id | SavedOf(h, maxAge) == h ensures InFile(h, id, maxAge).Some? <==> Recent(h, id, maxAge) {
        SavedKeepsLimit(h, id, maxAge);
      }
    } else {
      AnewOutlives("t");
    }
  }

  lemma ZeroOrRecent(h: History, id: string)
    ensures InFile(h, id, 0).Some? <==> Recent(h, id, 0)
  {
    if InFile(h, id, 0).Some? {
      ZeroLimit(h, id);
    }
    if Recent(h, id, 0) {
      RecentInFile(h, id, 0);
    }
  }

  lemma SavedKeepsLimit(h: History, id: string, maxAge: U32)
    requires SavedOf(h, maxAge) == h && maxAge < U32_MAX
    ensures InFile(h, id, maxAge).Some? <==> Recent(h, id, maxAge)
  {
    CacheIsHistory(h, id, maxAge);
    if Remembered(h, id, maxAge) {
      var j: nat :| LastRunAt(h, id, j) && KeptSince(h, id, j) && (maxAge == U32_MAX || |h| - 1 - j <= maxAge);
      assert Current(h, id, j);
    }
    if Recent(h, id, maxAge) {
      var j: nat :| Current(h, id, j) && |h| - 1 - j <= maxAge;
      assert LastRunAt(h, id, j);
    }
  }

  // One idle session more than the limit allows, none of which saves.
  lemma IdleOutlives(id: string, maxAge: U32)
    requires maxAge >= 1
    ensures InFile(Idle(id, maxAge + 1, false), id, maxAge).Some? && !Recent(Idle(id, maxAge + 1, false), id, maxAge)
  {
    var h := Idle(id, maxAge + 1, false);
    AgeingForgotten(id, maxAge + 1, maxAge, InFile(h, id, maxAge));
    IdleCurrent(id, maxAge + 1, false);
    OnlyLastRun(h, id, 0);
  }

  // As many sessions as wrap the age around, all of which save.
  lemma AnewOutlives(id: string)
    ensures
      var h := Idle(id, U32_MAX + 1, true);
      SavedOf(h, U32_MAX) == h && InFile(h, id, U32_MAX).Some? && !Recent(h, id, U32_MAX)
  {
    var h := Idle(id, U32_MAX + 1, true);
    AnewSaved(id, U32_MAX + 1, U32_MAX);
    IdleCurrent(id, U32_MAX + 1, true);
    OnlyLastRun(h, id, 0);
    FileIsHistory(h, id, U32_MAX);
    assert WithinLimit(h, 0, U32_MAX);
  }
}
