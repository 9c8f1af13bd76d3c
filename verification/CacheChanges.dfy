/** What each step of the concurrent cache changes: when a file comes, goes or is replaced, and when an entry does. */
module CacheChanges {
  import opened Blake
  import opened Lru
  import opened Directories
  import opened Reopening
  import opened CutOpening
  import opened DiskCaches
  import opened CacheMachines
  import opened CacheIntegrity
  import opened CacheBacking

  /** The step renames a complete scratch file to the name of `h`. */
  ghost predicate Places(s: State, step: Step, h: Hash) {
    && step.Act? && step.action.Place? && step.id in s.tasks && s.tasks[step.id].Writing?
    && s.tasks[step.id].h == h && s.tasks[step.id].done == |s.tasks[step.id].data|
    && !(ToHex(h) in s.disk.dir && !s.disk.dir[ToHex(h)].regular)
  }

  /** The step removes the file of `h`: evicted, corrupt, or evicted by opening. */
  ghost predicate TakesFile(s: State, step: Step, h: Hash) {
    match step
    case Act(id, action) =>
      && id in s.tasks && action.Remove?
      && (s.tasks[id] == Corrupt(h)
          || (s.tasks[id].Evicting? && s.tasks[id].victims != [] && s.tasks[id].victims[0] == h))
    case Reopen(order, budget, _) =>
      !s.up && Lists(s.disk.dir, order) && h in Evict(Filled(s.disk.dir, order), 0, budget).evicted
    case CrashInOpen(order, budget, swept, removed) =>
      && !s.up && Lists(s.disk.dir, order) && swept >= |order|
      && BlobAmong(Evict(Filled(s.disk.dir, order), 0, budget).evicted, removed, ToHex(h))
    case _ => false
  }

  lemma PlacingPuts(s: State, step: Step, h: Hash, blake: Blob -> Hash)
    requires Whole(s, Anything()) && Places(s, step, h)
    ensures var dir := Next(s, step, blake).disk.dir;
      && HasBlob(dir, h) && dir[ToHex(h)].data == s.tasks[step.id].data
      && (forall g :: g != h ==> (HasBlob(dir, g) <==> HasBlob(s.disk.dir, g)))
      && (forall g :: g != h && HasBlob(dir, g) ==> dir[ToHex(g)] == s.disk.dir[ToHex(g)])
  {
    hide ToHex, TempName;
    var w := s.tasks[step.id];
    assert TaskWhole(w, s.disk.dir, s.pid, s.counter, Anything());
    assert w.data[..w.done] == w.data;
    TempIsLong(h, s.pid, w.n);
    forall g ensures ToHex(g) != TempName(h, s.pid, w.n) && (ToHex(g) == ToHex(h) ==> g == h) {
      HexIsShort(g);
      if ToHex(g) == ToHex(h) { ToHexIsInjective(g, h); }
    }
  }

  /** The directory is as it was except for a name that is not the one of `h`. */
  lemma OtherName(dir: Directory, name: string, after: Directory, h: Hash)
    requires name != ToHex(h) && after - {name} == dir - {name}
    ensures HasBlob(after, h) <==> HasBlob(dir, h)
    ensures HasBlob(after, h) ==> after[ToHex(h)] == dir[ToHex(h)]
  {
    hide ToHex;
    assert ToHex(h) in after <==> ToHex(h) in after - {name};
    assert ToHex(h) in dir <==> ToHex(h) in dir - {name};
    if ToHex(h) in dir && ToHex(h) in after {
      assert (after - {name})[ToHex(h)] == (dir - {name})[ToHex(h)];
    }
  }

  lemma ScratchTakes(s: State, id: nat, action: Action, h: Hash, blake: Blob -> Hash)
    requires id in s.tasks && (s.tasks[id].Starting? || (s.tasks[id].Writing? && !action.Place?))
    ensures var dir := Next(s, Act(id, action), blake).disk.dir;
      && (HasBlob(dir, h) <==> HasBlob(s.disk.dir, h))
      && (HasBlob(dir, h) ==> dir[ToHex(h)] == s.disk.dir[ToHex(h)])
  {
    hide ToHex, TempName, HasBlob;
    HexIsShort(h);
    var g := s.tasks[id].h;
    var temp := TempName(g, s.pid, if s.tasks[id].Starting? then s.counter else s.tasks[id].n);
    TempIsLong(g, s.pid, if s.tasks[id].Starting? then s.counter else s.tasks[id].n);
    OtherName(s.disk.dir, temp, Next(s, Act(id, action), blake).disk.dir, h);
  }

  lemma PlaceTakes(s: State, id: nat, h: Hash, blake: Blob -> Hash)
    requires id in s.tasks && s.tasks[id].Writing? && !Places(s, Act(id, Place), h)
    ensures var dir := Next(s, Act(id, Place), blake).disk.dir;
      && (HasBlob(dir, h) <==> HasBlob(s.disk.dir, h))
      && (HasBlob(dir, h) ==> dir[ToHex(h)] == s.disk.dir[ToHex(h)])
  {
    hide ToHex, TempName;
    HexIsShort(h);
    TempIsLong(s.tasks[id].h, s.pid, s.tasks[id].n);
    if ToHex(s.tasks[id].h) == ToHex(h) { ToHexIsInjective(s.tasks[id].h, h); }
  }

  lemma RemovalTakes(s: State, id: nat, action: Action, h: Hash, blake: Blob -> Hash)
    requires id in s.tasks && !s.tasks[id].Starting? && !s.tasks[id].Writing?
    ensures var dir := Next(s, Act(id, action), blake).disk.dir;
      && (HasBlob(dir, h) <==> HasBlob(s.disk.dir, h) && !TakesFile(s, Act(id, action), h))
      && (HasBlob(dir, h) ==> dir[ToHex(h)] == s.disk.dir[ToHex(h)])
  {
    hide ToHex, TempName, Inserted, Touched, Dropped, Verifies, RemoveFile, HasBlob;
    match s.tasks[id]
    case Corrupt(g) => RemovedBlob(s.disk.dir, g, h);
    case Evicting(victims) => if victims != [] { RemovedBlob(s.disk.dir, victims[0], h); }
    case _ =>
  }

  lemma ActTakes(s: State, id: nat, action: Action, h: Hash, blake: Blob -> Hash)
    requires !Places(s, Act(id, action), h)
    ensures var dir := Next(s, Act(id, action), blake).disk.dir;
      && (HasBlob(dir, h) <==> HasBlob(s.disk.dir, h) && !TakesFile(s, Act(id, action), h))
      && (HasBlob(dir, h) ==> dir[ToHex(h)] == s.disk.dir[ToHex(h)])
  {
    hide ToHex, HasBlob, Places, Advance;
    if id in s.tasks {
      if !s.tasks[id].Starting? && !s.tasks[id].Writing? {
        RemovalTakes(s, id, action, h, blake);
      } else if s.tasks[id].Writing? && action.Place? {
        PlaceTakes(s, id, h, blake);
      } else {
        ScratchTakes(s, id, action, h, blake);
      }
    }
  }

  lemma OpeningTakes(s: State, step: Step, h: Hash, blake: Blob -> Hash)
    requires step.Reopen? || step.CrashInOpen?
    ensures var dir := Next(s, step, blake).disk.dir;
      && (HasBlob(dir, h) <==> HasBlob(s.disk.dir, h) && !TakesFile(s, step, h))
      && (HasBlob(dir, h) ==> dir[ToHex(h)] == s.disk.dir[ToHex(h)])
  {
    hide ToHex, Open, PartOpened, Lists, Filled, Evict, BlobAmong;
    if !s.up && Lists(s.disk.dir, step.order) {
      HexIsNotTemp(h);
      match step {
        case Reopen(order, budget, _) => OpenKeepsBlobs(s.disk.dir, order, budget, h);
        case CrashInOpen(order, budget, swept, removed) =>
          PartOpenedTakes(s.disk.dir, order, budget, swept, removed, ToHex(h));
      }
    }
  }

  /**
    Tampering leaves what it leaves. After any other step the file of `h` is the complete blob that the step put there,
    or what it was, or gone - and gone exactly when the step removes it. So a crash, a failure or a caller that gives up
    takes no file.
   */
  lemma FileAfterStep(s: State, step: Step, h: Hash, blake: Blob -> Hash)
    requires Whole(s, Anything())
    ensures var dir := Next(s, step, blake).disk.dir;
      if step.Tamper? then dir == step.files
      else if Places(s, step, h) then HasBlob(dir, h) && dir[ToHex(h)].data == s.tasks[step.id].data
      else
        && (HasBlob(dir, h) <==> HasBlob(s.disk.dir, h) && !TakesFile(s, step, h))
        && (HasBlob(dir, h) ==> dir[ToHex(h)] == s.disk.dir[ToHex(h)])
  {
    hide ToHex, Next, Whole, Places, TakesFile, HasBlob;
    match step
    case Act(id, action) =>
      if Places(s, step, h) {
        PlacingPuts(s, step, h, blake);
      } else {
        ActTakes(s, id, action, h, blake);
      }
    case Reopen(_, _, _) => OpeningTakes(s, step, h, blake); NeverPlaces(s, step, h, blake);
    case CrashInOpen(_, _, _, _) => OpeningTakes(s, step, h, blake); NeverPlaces(s, step, h, blake);
    case Tamper(files) => TamperLeaves(s, files, blake);
    case _ => NeverPlaces(s, step, h, blake);
  }

  lemma TamperLeaves(s: State, files: Directory, blake: Blob -> Hash)
    ensures Next(s, Tamper(files), blake) == s.(disk := Disk(files, s.disk.index))
  {
  }

  lemma NeverPlaces(s: State, step: Step, h: Hash, blake: Blob -> Hash)
    requires !step.Act?
    ensures !Places(s, step, h)
    ensures step.StartStore? || step.StartLookup? || step.Crash? ==>
      Next(s, step, blake).disk.dir == s.disk.dir && !TakesFile(s, step, h)
  {
  }

  // ---------------------------------------------------------------- the index

  /** The blob that the step indexes, and those that it evicts for it. */
  ghost predicate Indexes(s: State, step: Step, h: Hash) {
    step.Act? && step.action.Insert? && step.id in s.tasks && s.tasks[step.id].Placed? && s.tasks[step.id].h == h
  }

  ghost predicate Evicts(s: State, step: Step, h: Hash) {
    && step.Act? && step.action.Insert? && step.id in s.tasks && s.tasks[step.id].Placed?
    && h in Inserted(s.disk.index, s.tasks[step.id].h, |s.tasks[step.id].data|, s.budget).evicted
  }

  ghost predicate Forgets(s: State, step: Step, h: Hash) {
    step.Act? && step.action.Forget? && step.id in s.tasks && s.tasks[step.id] == Dropping(h)
  }

  /**
    While the process is up, a blob is in the index after a step exactly when the step indexes it, or it was there and
    the step neither evicts nor forgets it; a crash leaves nothing of the index.
   */
  lemma EntryAfterStep(s: State, step: Step, h: Hash, blake: Blob -> Hash)
    requires s.up && Valid(s.disk.index)
    ensures var v := Next(s, step, blake).disk.index;
      if step.Crash? then v == EMPTY
      else
        && (h in v.entries <==>
             Indexes(s, step, h) || (h in s.disk.index.entries && !Evicts(s, step, h) && !Forgets(s, step, h)))
        && (h in v.entries && !Indexes(s, step, h) ==> v.entries[h] == s.disk.index.entries[h])
        && (Indexes(s, step, h) ==> v.entries[h] == |s.tasks[step.id].data|)
  {
    hide ToHex, TempName, Inserted, Touched, Valid, WriteFile, Rename, Rewrite, RemoveFile, HasBlob, Lists, Open;
    if step.Act? && step.id in s.tasks {
      match s.tasks[step.id] {
        case Placed(g, data) => InsertedEntry(s.disk.index, g, |data|, s.budget, h);
        case Touching(g, data) => TouchedIsValid(s.disk.index, g);
        case _ =>
      }
    }
  }
}
