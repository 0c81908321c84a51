/** Materialized campaign state: rendered files and a manifest, checked against a fresh derivation. */
module Materialization {
  import opened Wrappers

  datatype Slot = WorldState | RecentlyTouched

  /** The managed artifacts in publication order. */
  const ORDER: seq<Slot> := [WorldState, RecentlyTouched]

  const RENDER_VERSION := "3"

  function LogicalPath(slot: Slot): string {
    match slot
    case WorldState => "State/World State.md"
    case RecentlyTouched => "State/Recently Touched.md"
  }

  /** A derived projection: its source fingerprint and whatever else the renderer reads. */
  datatype State = State(fingerprint: string, content: string)

  /** The renderer and the content hash, arbitrary functions. */
  datatype Config = Config(render: (State, Slot) -> string, hash: string -> string)

  datatype Manifest = Manifest(renderVersion: string, fingerprint: string, hashes: map<string, string>)

  datatype ManifestFile = Malformed | OldSchema | Parsed(manifest: Manifest)

  datatype Store = Store(manifest: Option<ManifestFile>, artifacts: map<Slot, string>)

  datatype Status = Missing | Outdated | Corrupt | Unverifiable | Stale | Current

  datatype Generation = Generation(manifest: Manifest, artifacts: map<Slot, string>)

  const PATHS: set<string> := {LogicalPath(WorldState), LogicalPath(RecentlyTouched)}

  // Reading

  /** The first `k` artifacts, present and with the hashes the manifest lists. */
  function StoredUpTo(cfg: Config, store: Store, manifest: Manifest, k: nat): Option<map<Slot, string>>
    requires k <= |ORDER|
  {
    if k == 0 then Some(map[])
    else
      match StoredUpTo(cfg, store, manifest, k - 1)
      case None => None
      case Some(stored) =>
        var slot := ORDER[k - 1];
        if slot !in store.artifacts then None
        else if LogicalPath(slot) !in manifest.hashes || cfg.hash(store.artifacts[slot]) != manifest.hashes[LogicalPath(slot)] then None
        else Some(stored[slot := store.artifacts[slot]])
  }

  function ValidateStored(cfg: Config, store: Store): Result<Generation, Status> {
    match store.manifest
    case None => if store.artifacts != map[] then Err(Corrupt) else Err(Missing)
    case Some(OldSchema) => Err(Outdated)
    case Some(Malformed) => Err(Corrupt)
    case Some(Parsed(manifest)) =>
      if manifest.renderVersion != RENDER_VERSION then Err(Outdated)
      else if manifest.hashes.Keys != PATHS then Err(Corrupt)
      else
        match StoredUpTo(cfg, store, manifest, |ORDER|)
        case None => Err(Corrupt)
        case Some(artifacts) => Ok(Generation(manifest, artifacts))
  }

  predicate MatchesUpTo(cfg: Config, artifacts: map<Slot, string>, state: State, k: nat)
    requires k <= |ORDER|
  {
    forall i :: 0 <= i < k ==> ORDER[i] in artifacts && artifacts[ORDER[i]] == cfg.render(state, ORDER[i])
  }

  function Freshness(cfg: Config, stored: Generation, state: State): Status {
    if stored.manifest.fingerprint != state.fingerprint then Stale
    else if !MatchesUpTo(cfg, stored.artifacts, state, |ORDER|) then Corrupt
    else Current
  }

  /** The inspection; the derivation may fail. */
  function Inspect(cfg: Config, store: Store, derived: Option<State>): Status {
    match ValidateStored(cfg, store)
    case Err(status) => status
    case Ok(stored) => if derived.None? then Unverifiable else Freshness(cfg, stored, derived.value)
  }

  // Rebuilding

  /** How far a publication gets: all of it, or an error or a crash after some of its writes. */
  datatype Fate = Finished | StoppedAfter(writes: nat)

  datatype Outcome = Published | AlreadyCurrent | SourceFailed | SourceChanged | RenderChanged | StorageError

  function BuildManifest(cfg: Config, state: State): Manifest {
    Manifest(RENDER_VERSION, state.fingerprint,
             map[LogicalPath(WorldState) := cfg.hash(cfg.render(state, WorldState)),
                 LogicalPath(RecentlyTouched) := cfg.hash(cfg.render(state, RecentlyTouched))])
  }

  /** The store after the first `k` artifact writes. */
  function WrittenUpTo(cfg: Config, store: Store, state: State, k: nat): Store
    requires k <= |ORDER|
  {
    if k == 0 then store
    else
      var before := WrittenUpTo(cfg, store, state, k - 1);
      before.(artifacts := before.artifacts[ORDER[k - 1] := cfg.render(state, ORDER[k - 1])])
  }

  predicate Renderable(cfg: Config, state: State) {
    forall slot :: '\r' !in cfg.render(state, slot)
  }

  /** Artifacts in order, the manifest last; nothing at all when a text has a carriage return. */
  function Publish(cfg: Config, store: Store, state: State, fate: Fate): (Store, Outcome) {
    if !Renderable(cfg, state) then (store, StorageError)
    else
      match fate
      case StoppedAfter(writes) =>
        if writes <= |ORDER| then (WrittenUpTo(cfg, store, state, writes), StorageError)
        else (WrittenUpTo(cfg, store, state, |ORDER|).(manifest := Some(Parsed(BuildManifest(cfg, state)))), StorageError)
      case Finished =>
        (WrittenUpTo(cfg, store, state, |ORDER|).(manifest := Some(Parsed(BuildManifest(cfg, state)))), Published)
  }

  predicate SameRender(cfg: Config, a: State, b: State) {
    forall slot :: cfg.render(a, slot) == cfg.render(b, slot)
  }

  /** Two derivations around the render; they must agree before anything is written. */
  function Rebuild(cfg: Config, store: Store, initial: Option<State>, later: Option<State>, fate: Fate): (Store, Outcome) {
    if initial.None? || later.None? then (store, SourceFailed)
    else if later.value.fingerprint != initial.value.fingerprint then (store, SourceChanged)
    else if !SameRender(cfg, later.value, initial.value) then (store, RenderChanged)
    else if Inspect(cfg, store, later) == Current then (store, AlreadyCurrent)
    else Publish(cfg, store, initial.value, fate)
  }

  class DerivedStateStore {
    var manifest: Option<ManifestFile>
    var artifacts: map<Slot, string>

    constructor ()
      ensures Contents() == Store(None, map[])
    {
      manifest := None;
      artifacts := map[];
    }

    function Contents(): Store
      reads this
    {
      Store(manifest, artifacts)
    }

    method ReadAndValidateStored(cfg: Config) returns (r: Result<Generation, Status>)
      ensures r == ValidateStored(cfg, Contents())
    {
      if manifest.None? {
        var present := exists i :: 0 <= i < |ORDER| && ORDER[i] in artifacts;
        OrderIsComplete(artifacts.Keys);
        return Err(if present then Corrupt else Missing);
      }
      if manifest.value.OldSchema? {
        return Err(Outdated);
      }
      if manifest.value.Malformed? {
        return Err(Corrupt);
      }
      var m := manifest.value.manifest;
      if m.renderVersion != RENDER_VERSION {
        return Err(Outdated);
      }
      if m.hashes.Keys != PATHS {
        return Err(Corrupt);
      }
      var stored: map<Slot, string> := map[];
      for k := 0 to |ORDER|
        invariant StoredUpTo(cfg, Contents(), m, k) == Some(stored)
      {
        var slot := ORDER[k];
        if slot !in artifacts || LogicalPath(slot) !in m.hashes || cfg.hash(artifacts[slot]) != m.hashes[LogicalPath(slot)] {
          StoredFails(cfg, Contents(), m, k + 1, |ORDER|);
          return Err(Corrupt);
        }
        stored := stored[slot := artifacts[slot]];
      }
      return Ok(Generation(m, stored));
    }

    method VerifyMaterialized(cfg: Config, derived: Option<State>) returns (status: Status)
      ensures status == Inspect(cfg, Contents(), derived)
    {
      var stored := ReadAndValidateStored(cfg);
      if stored.Err? {
        return stored.error;
      }
      if derived.None? {
        return Unverifiable;
      }
      if stored.value.manifest.fingerprint != derived.value.fingerprint {
        return Stale;
      }
      for k := 0 to |ORDER|
        invariant MatchesUpTo(cfg, stored.value.artifacts, derived.value, k)
      {
        var slot := ORDER[k];
        if slot !in stored.value.artifacts || stored.value.artifacts[slot] != cfg.render(derived.value, slot) {
          return Corrupt;
        }
      }
      return Current;
    }

    method PublishArtifacts(cfg: Config, state: State, fate: Fate) returns (outcome: Outcome)
      modifies this
      ensures (Contents(), outcome) == Publish(cfg, old(Contents()), state, fate)
    {
      if !Renderable(cfg, state) {
        return StorageError;
      }
      for k := 0 to |ORDER|
        invariant Contents() == WrittenUpTo(cfg, old(Contents()), state, k)
        invariant fate.StoppedAfter? ==> k <= fate.writes
      {
        if fate == StoppedAfter(k) {
          return StorageError;
        }
        artifacts := artifacts[ORDER[k] := cfg.render(state, ORDER[k])];
      }
      if fate == StoppedAfter(|ORDER|) {
        return StorageError;
      }
      manifest := Some(Parsed(BuildManifest(cfg, state)));
      return if fate.Finished? then Published else StorageError;
    }

    method RebuildCampaignState(cfg: Config, initial: Option<State>, later: Option<State>, fate: Fate) returns (outcome: Outcome)
      modifies this
      ensures (Contents(), outcome) == Rebuild(cfg, old(Contents()), initial, later, fate)
    {
      if initial.None? || later.None? {
        return SourceFailed;
      }
      if later.value.fingerprint != initial.value.fingerprint {
        return SourceChanged;
      }
      if !SameRender(cfg, later.value, initial.value) {
        return RenderChanged;
      }
      var status := VerifyMaterialized(cfg, later);
      if status == Current {
        return AlreadyCurrent;
      }
      outcome := PublishArtifacts(cfg, initial.value, fate);
    }
  }

  lemma {:induction false} StoredFails(cfg: Config, store: Store, manifest: Manifest, k: nat, n: nat)
    requires k <= n <= |ORDER| && StoredUpTo(cfg, store, manifest, k).None?
    ensures StoredUpTo(cfg, store, manifest, n).None?
  {
    if k < n {
      StoredFails(cfg, store, manifest, k, n - 1);
    }
  }

  // What CURRENT means

  /** Both artifacts are the render of the state, and the manifest lists them, their hashes and the state's fingerprint. */
  ghost predicate Exact(cfg: Config, store: Store, state: State) {
    && (forall slot :: slot in store.artifacts && store.artifacts[slot] == cfg.render(state, slot))
    && store.manifest == Some(Parsed(BuildManifest(cfg, state)))
  }

  lemma OrderIsComplete(slots: set<Slot>)
    ensures (exists i :: 0 <= i < |ORDER| && ORDER[i] in slots) <==> slots != {}
  {
    assert ORDER[0] == WorldState && ORDER[1] == RecentlyTouched;
    if slots != {} {
      var slot :| slot in slots;
      assert slot == WorldState || slot == RecentlyTouched;
    }
  }

  predicate SlotStored(cfg: Config, store: Store, manifest: Manifest, slot: Slot) {
    && slot in store.artifacts && LogicalPath(slot) in manifest.hashes
    && cfg.hash(store.artifacts[slot]) == manifest.hashes[LogicalPath(slot)]
  }

  lemma {:induction false} StoredIff(cfg: Config, store: Store, manifest: Manifest)
    ensures StoredUpTo(cfg, store, manifest, |ORDER|) ==
            if SlotStored(cfg, store, manifest, WorldState) && SlotStored(cfg, store, manifest, RecentlyTouched)
            then Some(map[WorldState := store.artifacts[WorldState], RecentlyTouched := store.artifacts[RecentlyTouched]])
            else None
  {
    assert ORDER[0] == WorldState && ORDER[1] == RecentlyTouched;
    assert StoredUpTo(cfg, store, manifest, 0) == Some(map[]);
    var one := StoredUpTo(cfg, store, manifest, 1);
    assert one.Some? ==> one.value == map[WorldState := store.artifacts[WorldState]];
  }

  lemma ExactIff(cfg: Config, store: Store, state: State)
    ensures Exact(cfg, store, state) <==>
            && WorldState in store.artifacts && store.artifacts[WorldState] == cfg.render(state, WorldState)
            && RecentlyTouched in store.artifacts && store.artifacts[RecentlyTouched] == cfg.render(state, RecentlyTouched)
            && store.manifest == Some(Parsed(BuildManifest(cfg, state)))
  {
    if && WorldState in store.artifacts && store.artifacts[WorldState] == cfg.render(state, WorldState)
       && RecentlyTouched in store.artifacts && store.artifacts[RecentlyTouched] == cfg.render(state, RecentlyTouched) {
      forall slot
        ensures slot in store.artifacts && store.artifacts[slot] == cfg.render(state, slot)
      {
        match slot
        case WorldState =>
        case RecentlyTouched =>
      }
    }
  }

  /**
   CURRENT is reported exactly when the derivation succeeds and every stored byte
   is the render of the freshly derived state, under a manifest that says so.
   Any other store, torn or edited by hand with matching hashes, is something else.
   */
  lemma CurrentIffExact(cfg: Config, store: Store, derived: Option<State>)
    ensures Inspect(cfg, store, derived) == Current <==> derived.Some? && Exact(cfg, store, derived.value)
  {
    assert ORDER[0] == WorldState && ORDER[1] == RecentlyTouched;
    if derived.Some? {
      ExactIff(cfg, store, derived.value);
    }
    if store.manifest.Some? && store.manifest.value.Parsed? {
      var manifest := store.manifest.value.manifest;
      StoredIff(cfg, store, manifest);
      if derived.Some? {
        if Exact(cfg, store, derived.value) {
          assert manifest.hashes.Keys == PATHS;
        }
        if Inspect(cfg, store, derived) == Current {
          assert manifest.hashes == BuildManifest(cfg, derived.value).hashes;
        }
      }
    }
  }

  lemma {:induction false} Written(cfg: Config, store: Store, state: State)
    ensures var now := WrittenUpTo(cfg, store, state, |ORDER|);
            now.manifest == store.manifest && forall slot :: slot in now.artifacts && now.artifacts[slot] == cfg.render(state, slot)
  {
    assert ORDER[0] == WorldState && ORDER[1] == RecentlyTouched;
    assert WrittenUpTo(cfg, store, state, 0) == store;
    assert WrittenUpTo(cfg, store, state, 1).artifacts == store.artifacts[WorldState := cfg.render(state, WorldState)];
    var now := WrittenUpTo(cfg, store, state, |ORDER|);
    forall slot
      ensures slot in now.artifacts && now.artifacts[slot] == cfg.render(state, slot)
    {
      assert slot == WorldState || slot == RecentlyTouched;
    }
  }

  // Rebuilding from any store

  /**
   Whatever the store holds, torn by an earlier rebuild or edited by hand: a
   rebuild that finishes is inspected as CURRENT, a second one over the same
   sources writes nothing, and one whose two derivations differ writes nothing.
   */
  lemma RebuildsHeal(cfg: Config, store: Store, initial: State, later: State, fate: Fate)
    ensures var (now, outcome) := Rebuild(cfg, store, Some(initial), Some(later), fate);
            && (outcome == Published || outcome == AlreadyCurrent ==>
                  && Inspect(cfg, now, Some(later)) == Current
                  && forall again :: Rebuild(cfg, now, Some(later), Some(later), again) == (now, AlreadyCurrent))
            && (outcome == Published <==>
                  && later.fingerprint == initial.fingerprint && SameRender(cfg, later, initial)
                  && Inspect(cfg, store, Some(later)) != Current && Renderable(cfg, initial) && fate == Finished)
            && (initial.fingerprint != later.fingerprint || !SameRender(cfg, later, initial) ==> now == store)
  {
    var (now, outcome) := Rebuild(cfg, store, Some(initial), Some(later), fate);
    Written(cfg, store, initial);
    CurrentIffExact(cfg, now, Some(later));
    if outcome == Published {
      assert BuildManifest(cfg, initial) == BuildManifest(cfg, later);
      assert Exact(cfg, now, later);
    }
  }

  /** The slots from `k` on hold their renders already. */
  predicate RenderedFrom(cfg: Config, store: Store, state: State, k: nat) {
    forall i :: k <= i < |ORDER| ==> ORDER[i] in store.artifacts && store.artifacts[ORDER[i]] == cfg.render(state, ORDER[i])
  }

  /**
   A publication torn before its manifest is taken for the new state exactly when
   the old manifest is the new one already and every slot it did not reach holds
   its render; the writes before the tear count for nothing else.
   */
  lemma TornPublicationIsCurrentIff(cfg: Config, store: Store, state: State, writes: nat)
    requires writes <= |ORDER| && Renderable(cfg, state)
    ensures Inspect(cfg, Publish(cfg, store, state, StoppedAfter(writes)).0, Some(state)) == Current <==>
            store.manifest == Some(Parsed(BuildManifest(cfg, state))) && RenderedFrom(cfg, store, state, writes)
  {
    var torn := Publish(cfg, store, state, StoppedAfter(writes)).0;
    ManifestKept(cfg, store, state, writes);
    CurrentIffExact(cfg, torn, Some(state));
    ExactIff(cfg, torn, state);
    assert ORDER[0] == WorldState && ORDER[1] == RecentlyTouched;
    WrittenSlots(cfg, store, state, writes);
  }

  lemma {:induction false} WrittenSlots(cfg: Config, store: Store, state: State, k: nat)
    requires k <= |ORDER|
    ensures var now := WrittenUpTo(cfg, store, state, k);
            forall i :: 0 <= i < |ORDER| ==>
              && (i < k ==> ORDER[i] in now.artifacts && now.artifacts[ORDER[i]] == cfg.render(state, ORDER[i]))
              && (i >= k ==> (ORDER[i] in now.artifacts <==> ORDER[i] in store.artifacts))
              && (i >= k && ORDER[i] in store.artifacts ==> now.artifacts[ORDER[i]] == store.artifacts[ORDER[i]])
  {
    if k > 0 {
      WrittenSlots(cfg, store, state, k - 1);
      assert ORDER[0] != ORDER[1];
    }
  }

  lemma {:induction false} ManifestKept(cfg: Config, store: Store, state: State, k: nat)
    requires k <= |ORDER|
    ensures WrittenUpTo(cfg, store, state, k).manifest == store.manifest
  {
    if k > 0 {
      ManifestKept(cfg, store, state, k - 1);
    }
  }
}
