/** The one status of every materialized store, and the one outcome of every rebuild. */
module MaterializationStatuses {
  import opened Wrappers
  import opened Materialization

  predicate NothingThere(store: Store) {
    store.manifest == None && WorldState !in store.artifacts && RecentlyTouched !in store.artifacts
  }

  /** A manifest of an earlier schema or of another render version. */
  predicate OfAnotherVersion(store: Store) {
    match store.manifest
    case Some(OldSchema) => true
    case Some(Parsed(manifest)) => manifest.renderVersion != "3"
    case _ => false
  }

  /** The artifact is there with the hash the manifest lists under its path. */
  predicate HashAgrees(cfg: Config, store: Store, hashes: map<string, string>, slot: Slot, path: string) {
    slot in store.artifacts && path in hashes && hashes[path] == cfg.hash(store.artifacts[slot])
  }

  /** A manifest of this version listing the two paths and no other, with the hashes of what is stored. */
  predicate AgreesWithItself(cfg: Config, store: Store) {
    match store.manifest
    case Some(Parsed(Manifest(version, _, hashes))) =>
      && version == "3"
      && hashes.Keys == {"State/World State.md", "State/Recently Touched.md"}
      && HashAgrees(cfg, store, hashes, WorldState, "State/World State.md")
      && HashAgrees(cfg, store, hashes, RecentlyTouched, "State/Recently Touched.md")
    case _ => false
  }

  predicate NamesSource(store: Store, fingerprint: string) {
    match store.manifest
    case Some(Parsed(manifest)) => manifest.fingerprint == fingerprint
    case _ => false
  }

  predicate HoldsRender(cfg: Config, store: Store, state: State) {
    && WorldState in store.artifacts && store.artifacts[WorldState] == cfg.render(state, WorldState)
    && RecentlyTouched in store.artifacts && store.artifacts[RecentlyTouched] == cfg.render(state, RecentlyTouched)
  }

  lemma MapsOfSlots(artifacts: map<Slot, string>)
    ensures artifacts != map[] <==> WorldState in artifacts || RecentlyTouched in artifacts
  {
    if artifacts != map[] {
      assert artifacts.Keys != {};
      var slot :| slot in artifacts;
      assert slot == WorldState || slot == RecentlyTouched;
    }
  }

  /** What the stored files alone say, without looking at the sources. */
  lemma {:induction false} StoredIs(cfg: Config, store: Store)
    ensures ValidateStored(cfg, store) == Err(Missing) <==> NothingThere(store)
    ensures ValidateStored(cfg, store) == Err(Outdated) <==> OfAnotherVersion(store)
    ensures ValidateStored(cfg, store).Ok? <==> AgreesWithItself(cfg, store)
    ensures ValidateStored(cfg, store) == Err(Corrupt)
      <==> !NothingThere(store) && !OfAnotherVersion(store) && !AgreesWithItself(cfg, store)
    ensures AgreesWithItself(cfg, store)
      ==> && ValidateStored(cfg, store).value.manifest == store.manifest.value.manifest
          && ValidateStored(cfg, store).value.artifacts
             == map[WorldState := store.artifacts[WorldState], RecentlyTouched := store.artifacts[RecentlyTouched]]
  {
    MapsOfSlots(store.artifacts);
    if store.manifest.Some? && store.manifest.value.Parsed? {
      StoredIff(cfg, store, store.manifest.value.manifest);
    }
  }

  /** Each status is reported exactly on its own stores. */
  lemma StatusIff(cfg: Config, store: Store, derived: Option<State>)
    ensures var status := Inspect(cfg, store, derived);
            && (status == Missing <==> NothingThere(store))
            && (status == Outdated <==> OfAnotherVersion(store))
            && (status == Unverifiable <==> AgreesWithItself(cfg, store) && derived == None)
            && (status == Stale <==> AgreesWithItself(cfg, store) && derived.Some? && !NamesSource(store, derived.value.fingerprint))
            && (status == Current
                <==> && AgreesWithItself(cfg, store) && derived.Some?
                     && NamesSource(store, derived.value.fingerprint) && HoldsRender(cfg, store, derived.value))
            && (status == Corrupt
                <==> if AgreesWithItself(cfg, store)
                     then derived.Some? && NamesSource(store, derived.value.fingerprint) && !HoldsRender(cfg, store, derived.value)
                     else !NothingThere(store) && !OfAnotherVersion(store))
  {
    StoredIs(cfg, store);
    assert ORDER[0] == WorldState && ORDER[1] == RecentlyTouched;
    if AgreesWithItself(cfg, store) && derived.Some? {
      MatchIff(cfg, store, derived.value);
    }
  }

  lemma MatchIff(cfg: Config, store: Store, state: State)
    requires AgreesWithItself(cfg, store)
    ensures ValidateStored(cfg, store).Ok?
    ensures MatchesUpTo(cfg, ValidateStored(cfg, store).value.artifacts, state, |ORDER|) <==> HoldsRender(cfg, store, state)
  {
    StoredIs(cfg, store);
    var stored := ValidateStored(cfg, store).value.artifacts;
    assert ORDER[0] == WorldState && ORDER[1] == RecentlyTouched;
    if HoldsRender(cfg, store, state) {
      forall i | 0 <= i < |ORDER|
        ensures ORDER[i] in stored && stored[ORDER[i]] == cfg.render(state, ORDER[i])
      {
        assert i == 0 || i == 1;
      }
    }
    if MatchesUpTo(cfg, stored, state, |ORDER|) {
      assert stored[ORDER[0]] == cfg.render(state, ORDER[0]) && stored[ORDER[1]] == cfg.render(state, ORDER[1]);
    }
  }

  /** The artifact of a slot after `writes` completed writes in publication order. */
  predicate SlotAfter(cfg: Config, store: Store, now: Store, state: State, slot: Slot, written: bool) {
    if written then slot in now.artifacts && now.artifacts[slot] == cfg.render(state, slot)
    else (slot in now.artifacts <==> slot in store.artifacts) && (slot in store.artifacts ==> now.artifacts[slot] == store.artifacts[slot])
  }

  /** The manifest of a complete publication: version, source and the hash of each render under its path. */
  predicate Describes(cfg: Config, manifest: Option<ManifestFile>, state: State) {
    match manifest
    case Some(Parsed(Manifest(version, fingerprint, hashes))) =>
      && version == "3" && fingerprint == state.fingerprint
      && hashes == map["State/World State.md" := cfg.hash(cfg.render(state, WorldState)),
                       "State/Recently Touched.md" := cfg.hash(cfg.render(state, RecentlyTouched))]
    case _ => false
  }

  /** The world state first, the touched list second, the manifest third. */
  predicate AfterWrites(cfg: Config, store: Store, now: Store, state: State, writes: nat) {
    && SlotAfter(cfg, store, now, state, WorldState, writes >= 1)
    && SlotAfter(cfg, store, now, state, RecentlyTouched, writes >= 2)
    && (if writes >= 3 then Describes(cfg, now.manifest, state) else now.manifest == store.manifest)
  }

  predicate AnyCarriageReturn(cfg: Config, state: State) {
    '\r' in cfg.render(state, WorldState) || '\r' in cfg.render(state, RecentlyTouched)
  }

  predicate RendersAlike(cfg: Config, a: State, b: State) {
    && cfg.render(a, WorldState) == cfg.render(b, WorldState)
    && cfg.render(a, RecentlyTouched) == cfg.render(b, RecentlyTouched)
  }

  /** Both artifacts and the manifest are those of the state. */
  predicate UpToDate(cfg: Config, store: Store, state: State) {
    HoldsRender(cfg, store, state) && Describes(cfg, store.manifest, state)
  }

  predicate OutcomeFits(cfg: Config, store: Store, initial: Option<State>, later: Option<State>, fate: Fate, now: Store, outcome: Outcome) {
    if initial == None || later == None then outcome == SourceFailed && now == store
    else
      var a, b := initial.value, later.value;
      if a.fingerprint != b.fingerprint then outcome == SourceChanged && now == store
      else if !RendersAlike(cfg, a, b) then outcome == RenderChanged && now == store
      else if UpToDate(cfg, store, b) then outcome == AlreadyCurrent && now == store
      else if AnyCarriageReturn(cfg, a) then outcome == StorageError && now == store
      else
        match fate
        case Finished => outcome == Published && AfterWrites(cfg, store, now, a, 3)
        case StoppedAfter(writes) => outcome == StorageError && AfterWrites(cfg, store, now, a, writes)
  }

  lemma SlotsAreTwo(cfg: Config, a: State, b: State)
    ensures Renderable(cfg, a) <==> !AnyCarriageReturn(cfg, a)
    ensures SameRender(cfg, a, b) <==> RendersAlike(cfg, a, b)
  {
    if !AnyCarriageReturn(cfg, a) {
      forall slot
        ensures '\r' !in cfg.render(a, slot)
      {
        assert slot == WorldState || slot == RecentlyTouched;
      }
    }
    if RendersAlike(cfg, a, b) {
      forall slot
        ensures cfg.render(a, slot) == cfg.render(b, slot)
      {
        assert slot == WorldState || slot == RecentlyTouched;
      }
    }
  }

  lemma WritesAreOrdered(cfg: Config, store: Store, state: State, writes: nat)
    requires Renderable(cfg, state)
    ensures AfterWrites(cfg, store, Publish(cfg, store, state, StoppedAfter(writes)).0, state, writes)
    ensures AfterWrites(cfg, store, Publish(cfg, store, state, Finished).0, state, 3)
  {
    assert ORDER[0] == WorldState && ORDER[1] == RecentlyTouched;
    WrittenSlots(cfg, store, state, 2);
    ManifestKept(cfg, store, state, 2);
    if writes <= 2 {
      WrittenSlots(cfg, store, state, writes);
      ManifestKept(cfg, store, state, writes);
    }
  }

  /** Every rebuild: the first failing gate ends it with nothing written, and what a fault leaves is a cut of the writes. */
  lemma RebuildIs(cfg: Config, store: Store, initial: Option<State>, later: Option<State>, fate: Fate)
    ensures OutcomeFits(cfg, store, initial, later, fate, Rebuild(cfg, store, initial, later, fate).0, Rebuild(cfg, store, initial, later, fate).1)
  {
    if initial.Some? && later.Some? {
      var a, b := initial.value, later.value;
      SlotsAreTwo(cfg, a, b);
      CurrentIffExact(cfg, store, Some(b));
      ExactIff(cfg, store, b);
      assert Describes(cfg, store.manifest, b) <==> store.manifest == Some(Parsed(BuildManifest(cfg, b)));
      if Renderable(cfg, a) {
        WritesAreOrdered(cfg, store, a, if fate.StoppedAfter? then fate.writes else 0);
      }
    }
  }
}
