/** ChunkingSystem and Chunk: the world is streamed in square chunks of
    chunkSize x chunkSize tiles. Each frame the chunks within loadRadius of the
    camera's chunk are generated (noise job, then mesh job) and published to
    the ECS world as an entity carrying ChunkData and a TileBufferElement
    buffer; chunks that leave the square are disposed and their entity is
    destroyed. NativeArrays are sequences with an IsCreated flag; the chunk's
    GameObject is a handle flag; the ECS world is the part of it this system
    writes (components and buffers by entity, and the next entity id). */
module Chunking {
  import opened Grid
  import opened TileData
  import NoiseJob
  import MeshJob
  import TileMap

  // ---------------------------------------------------------------------
  // Chunk and world coordinates
  // ---------------------------------------------------------------------

  /** `WorldToChunk(Vector3, chunkSize)`: the chunk under a position of the
      XZ plane, by floor division. */
  function WorldToChunk(worldPosition: Vec3, chunkSize: int): Int2
    requires chunkSize > 0
  {
    Int2((worldPosition.x / chunkSize as real).Floor, (worldPosition.z / chunkSize as real).Floor)
  }

  /** `ChunkToWorld(chunkCoord, chunkSize)`: the world position of a chunk's
      corner. */
  function ChunkToWorld(chunkCoord: Int2, chunkSize: int): Vec3
  {
    Vec3((chunkCoord.x * chunkSize) as real, 0.0, (chunkCoord.y * chunkSize) as real)
  }

  /** Real division followed by floor is integer floor division. */
  lemma FloorOfQuotient(a: int, b: int)
    requires b > 0
    ensures (a as real / b as real).Floor == FloorDiv(a, b)
  {
    var q := FloorDiv(a, b);
    var r := a - q * b;
    assert 0 <= r < b;
    var x := a as real / b as real;
    assert a as real == (q * b) as real + r as real;
    assert (q * b) as real == q as real * b as real;
    assert x == q as real + r as real / b as real;
    assert 0.0 <= r as real / b as real < 1.0;
  }

  /** `WorldToChunk(Vector2Int, chunkSize)`: `FloorToInt((float)x / chunkSize)`
      is the owning chunk of a tile, the same floor division the planner uses. */
  function TileToChunk(worldPosition: Int2, chunkSize: int): (c: Int2)
    requires chunkSize > 0
    ensures c == ChunkOf(worldPosition, chunkSize)
  {
    FloorOfQuotient(worldPosition.x, chunkSize);
    FloorOfQuotient(worldPosition.y, chunkSize);
    Int2((worldPosition.x as real / chunkSize as real).Floor, (worldPosition.y as real / chunkSize as real).Floor)
  }

  /** The chunk found for a position holds it: its corner is at or before the
      position and the next chunk's corner is after it, on both axes. */
  lemma {:induction false} WorldToChunkContains(p: Vec3, chunkSize: int)
    requires chunkSize > 0
    ensures var corner := ChunkToWorld(WorldToChunk(p, chunkSize), chunkSize);
      corner.x <= p.x < corner.x + chunkSize as real &&
      corner.z <= p.z < corner.z + chunkSize as real
  {
    var c := WorldToChunk(p, chunkSize);
    var n := chunkSize as real;
    assert (c.x * chunkSize) as real == c.x as real * n;
    assert (c.y * chunkSize) as real == c.y as real * n;
    ScaleBracket(c.x as real, p.x, n);
    ScaleBracket(c.y as real, p.z, n);
  }

  lemma ScaleBracket(a: real, t: real, n: real)
    requires n > 0.0 && a <= t / n < a + 1.0
    ensures a * n <= t < a * n + n
  {
    ScaleBelow(a, t, n);
    ScaleAbove(a, t, n);
  }

  lemma ScaleBelow(a: real, t: real, n: real)
    requires n > 0.0 && a <= t / n
    ensures a * n <= t
  {
    var q := t / n;
    assert t == q * n;
    var d := q - a;
    MulNonnegativeReal(d, n);
    assert d * n == q * n - a * n;
  }

  lemma ScaleAbove(a: real, t: real, n: real)
    requires n > 0.0 && t / n < a + 1.0
    ensures t < a * n + n
  {
    var q := t / n;
    assert t == q * n;
    var d := a + 1.0 - q;
    assert d > 0.0;
    MulPositiveReal(d, n);
    assert d * n > 0.0;
    assert d * n == a * n + n - q * n;
  }

  lemma MulNonnegativeReal(a: real, b: real)
    requires a >= 0.0 && b >= 0.0
    ensures a * b >= 0.0
  {}

  lemma MulPositiveReal(a: real, b: real)
    requires a > 0.0 && b > 0.0
    ensures a * b > 0.0
  {}

  /** Converting a chunk to its world corner and back gives the chunk again,
      negative chunks included. */
  lemma {:induction false} ChunkToWorldRoundTrip(c: Int2, chunkSize: int)
    requires chunkSize > 0
    ensures WorldToChunk(ChunkToWorld(c, chunkSize), chunkSize) == c
  {
    FloorOfQuotient(c.x * chunkSize, chunkSize);
    FloorOfQuotient(c.y * chunkSize, chunkSize);
    DivModUnique(c.x * chunkSize, chunkSize, c.x, 0);
    DivModUnique(c.y * chunkSize, chunkSize, c.y, 0);
  }

  // ---------------------------------------------------------------------
  // The square of chunks kept around the camera
  // ---------------------------------------------------------------------

  /** Chunks per side of the kept square: -r..r, empty for a negative radius. */
  function Side(loadRadius: int): nat
  {
    if loadRadius >= 0 then 2 * loadRadius + 1 else 0
  }

  predicate InSquare(k: Int2, cameraChunk: Int2, loadRadius: int)
  {
    -loadRadius <= k.x - cameraChunk.x <= loadRadius && -loadRadius <= k.y - cameraChunk.y <= loadRadius
  }

  /** The chunks UpdateChunks keeps, in the order its two loops add them to
      the set: x from -r to r, and within each x, y from -r to r. */
  function KeepOrder(cameraChunk: Int2, loadRadius: int): (keep: seq<Int2>)
  {
    var side := Side(loadRadius);
    MulNonnegative(side, side);
    seq(side * side, i requires 0 <= i < side * side =>
      Int2(cameraChunk.x - loadRadius + i / side, cameraChunk.y - loadRadius + i % side))
  }

  predicate NoDuplicates<T(==)>(s: seq<T>)
  {
    forall i, j :: 0 <= i < j < |s| ==> s[i] != s[j]
  }

  /** The kept chunks are exactly the (2r+1)^2 chunks of the square, each once. */
  lemma {:induction false} KeepOrderIsSquare(cameraChunk: Int2, loadRadius: int)
    ensures |KeepOrder(cameraChunk, loadRadius)| == Side(loadRadius) * Side(loadRadius)
    ensures forall k :: k in KeepOrder(cameraChunk, loadRadius) <==> InSquare(k, cameraChunk, loadRadius)
    ensures NoDuplicates(KeepOrder(cameraChunk, loadRadius))
  {
    var keep := KeepOrder(cameraChunk, loadRadius);
    var side := Side(loadRadius);
    forall k | k in keep
      ensures InSquare(k, cameraChunk, loadRadius)
    {
      var i :| 0 <= i < |keep| && keep[i] == k;
      IndexToTile(i, side);
    }
    forall k | InSquare(k, cameraChunk, loadRadius)
      ensures k in keep
    {
      var a, b := k.x - cameraChunk.x + loadRadius, k.y - cameraChunk.y + loadRadius;
      RowMajorInRange(b, a, side);
      var i := RowMajor(b, a, side);
      assert keep[i] == k;
    }
    forall i, j | 0 <= i < j < |keep|
      ensures keep[i] != keep[j]
    {
      IndexToTile(i, side);
      IndexToTile(j, side);
    }
  }

  // ---------------------------------------------------------------------
  // The abstract state: chunk views and the ECS data the system owns
  // ---------------------------------------------------------------------

  /** What a Chunk holds, as a value. `tempsCreated` says whether any of the
      vertex, triangle and UV buffers is allocated. */
  datatype ChunkView = ChunkView(state: ChunkState, isDirty: bool, tiles: seq<Tile>, tilesCreated: bool,
                                 tempsCreated: bool, hasChunkObject: bool)

  /** activeChunks as views, chunkToEntityMap, the ChunkData component and the
      TileBufferElement buffer of each entity, and the next entity id. */
  datatype World = World(chunks: map<Int2, ChunkView>, entityOf: map<Int2, Entity>,
                         records: map<Entity, ChunkData>, buffers: map<Entity, seq<TileBufferElement>>,
                         nextEntity: nat)

  /** A chunk's tiles as buffer elements, slot for slot. */
  function TileElements(tiles: seq<Tile>): (b: seq<TileBufferElement>)
    ensures |b| == |tiles| && forall i :: 0 <= i < |tiles| ==> b[i].tileData == tiles[i]
  {
    seq(|tiles|, i requires 0 <= i < |tiles| => TileBufferElement(tiles[i]))
  }

  /** Entity bookkeeping: every mapped entity was created by this system, has
      its component and buffer, and its ChunkData names the chunk it is mapped
      from, so it belongs to one chunk only. */
  predicate EntitiesWellFormed(entityOf: map<Int2, Entity>, records: map<Entity, ChunkData>,
                               buffers: map<Entity, seq<TileBufferElement>>, nextEntity: nat)
  {
    (forall k :: k in entityOf ==>
       entityOf[k].index < nextEntity && entityOf[k] in records && entityOf[k] in buffers &&
       records[entityOf[k]].chunkCoord == k)
  }

  predicate WellFormed(w: World)
  {
    EntitiesWellFormed(w.entityOf, w.records, w.buffers, w.nextEntity)
  }

  /** The publication invariant: exactly the Loaded chunks have an entity, its
      ChunkData names the chunk and its tile count, and unless the chunk is
      dirty its buffer holds the chunk's tiles. */
  ghost predicate Published(w: World)
  {
    WellFormed(w) &&
    (forall k :: k in w.entityOf <==> k in w.chunks && w.chunks[k].state == Loaded) &&
    (forall k :: k in w.entityOf ==>
       w.records[w.entityOf[k]] == ChunkData(k, |w.chunks[k].tiles|) &&
       (!w.chunks[k].isDirty ==> w.buffers[w.entityOf[k]] == TileElements(w.chunks[k].tiles)))
  }

  /** Every chunk in the map is being loaded or is loaded. */
  predicate Live(w: World)
  {
    forall k :: k in w.chunks ==> w.chunks[k].state == WaitingToLoad || w.chunks[k].state == Loaded
  }

  /** Between frames: every chunk is loaded and published. */
  ghost predicate Steady(w: World)
  {
    Published(w) && forall k :: k in w.chunks ==> w.chunks[k].state == Loaded
  }

  // --- CopyTileDataToBuffer, OnChunkLoaded, OnChunkUnloaded, UnloadChunk ---

  /** CopyTileDataToBuffer: a Loaded chunk with an entity gets its buffer
      replaced by its tiles; otherwise nothing changes. */
  function CopiedToBuffer(w: World, k: Int2): World
  {
    if k !in w.chunks || w.chunks[k].state != Loaded || k !in w.entityOf then w
    else w.(buffers := w.buffers[w.entityOf[k] := TileElements(w.chunks[k].tiles)])
  }

  /** OnChunkLoaded: a Loaded chunk gets a fresh entity with its ChunkData and
      a buffer holding its tiles, and is no longer dirty. */
  function ChunkLoaded(w: World, k: Int2): World
  {
    if k in w.chunks && w.chunks[k].state == Loaded then
      var e := Entity(w.nextEntity);
      var created := w.(records := w.records[e := ChunkData(k, |w.chunks[k].tiles|)],
                        buffers := w.buffers[e := []],
                        entityOf := w.entityOf[k := e],
                        nextEntity := w.nextEntity + 1);
      var copied := CopiedToBuffer(created, k);
      copied.(chunks := copied.chunks[k := copied.chunks[k].(isDirty := false)])
    else w
  }

  /** The finalisation pass of LoadChunksAsync for one coordinate: a
      WaitingToLoad chunk gets its mesh object, frees its temporary buffers,
      becomes Loaded and is published. */
  function Finalized(w: World, k: Int2): World
  {
    if k in w.chunks && w.chunks[k].state == WaitingToLoad then
      ChunkLoaded(w.(chunks := w.chunks[k := w.chunks[k].(tempsCreated := false, hasChunkObject := true,
                                                          state := Loaded)]), k)
    else w
  }

  function FinalizedAll(w: World, keys: seq<Int2>): World
    decreases |keys|
  {
    if |keys| == 0 then w else Finalized(FinalizedAll(w, keys[..|keys| - 1]), keys[|keys| - 1])
  }

  /** OnChunkUnloaded: the chunk's entity, if any, is destroyed and unmapped. */
  function ChunkUnloaded(w: World, k: Int2): World
  {
    if k in w.entityOf then
      w.(records := w.records - {w.entityOf[k]}, buffers := w.buffers - {w.entityOf[k]},
         entityOf := w.entityOf - {k})
    else w
  }

  /** UnloadChunk as seen in the map: a WaitingToLoad or Loaded chunk is
      removed with its entity; an absent coordinate or a chunk in another state
      changes nothing. */
  function Removed(w: World, k: Int2): World
  {
    if k in w.chunks && (w.chunks[k].state == WaitingToLoad || w.chunks[k].state == Loaded) then
      ChunkUnloaded(w.(chunks := w.chunks - {k}), k)
    else w
  }

  /** The coordinates of `s` that UnloadChunk removes. */
  function Doomed(w: World, s: set<Int2>): set<Int2>
  {
    set k | k in s && k in w.chunks && (w.chunks[k].state == WaitingToLoad || w.chunks[k].state == Loaded)
  }

  function EntitiesOf(w: World, s: set<Int2>): set<Entity>
  {
    set k | k in s && k in w.entityOf :: w.entityOf[k]
  }

  /** Removed applied to every coordinate of `s`, in any order. */
  function UnloadedAll(w: World, s: set<Int2>): World
  {
    var gone := Doomed(w, s);
    var entities := EntitiesOf(w, gone);
    w.(chunks := w.chunks - gone, entityOf := w.entityOf - gone,
       records := w.records - entities, buffers := w.buffers - entities)
  }

  /** Unloading one more coordinate extends the set: the order in which
      UpdateChunks visits the chunks to remove does not matter. */
  lemma {:induction false} UnloadedStep(w: World, s: set<Int2>, k: Int2)
    requires k !in s
    ensures Removed(UnloadedAll(w, s), k) == UnloadedAll(w, s + {k})
  {
    var u := UnloadedAll(w, s);
    var gone := Doomed(w, s);
    var gone' := Doomed(w, s + {k});
    assert k in u.chunks <==> k in w.chunks;
    assert k in u.chunks ==> u.chunks[k] == w.chunks[k];
    assert k in u.entityOf <==> k in w.entityOf;
    if k in w.chunks && (w.chunks[k].state == WaitingToLoad || w.chunks[k].state == Loaded) {
      assert gone' == gone + {k};
      if k in w.entityOf {
        assert EntitiesOf(w, gone') == EntitiesOf(w, gone) + {w.entityOf[k]};
      } else {
        assert EntitiesOf(w, gone') == EntitiesOf(w, gone);
      }
    } else {
      assert gone' == gone;
    }
  }

  /** Nothing to unload, nothing changes. */
  lemma UnloadedNothing(w: World, s: set<Int2>)
    requires Doomed(w, s) == {}
    ensures UnloadedAll(w, s) == w
  {
    assert EntitiesOf(w, {}) == {};
  }

  // --- UpdateChunkBuffers ---

  /** One iteration of UpdateChunkBuffers: a Loaded, dirty chunk is copied to
      its buffer and marked clean. */
  function Cleaned(w: World, k: Int2): World
  {
    if k in w.chunks && w.chunks[k].state == Loaded && w.chunks[k].isDirty then
      var copied := CopiedToBuffer(w, k);
      copied.(chunks := copied.chunks[k := copied.chunks[k].(isDirty := false)])
    else w
  }

  /** The Loaded, dirty chunks among `s`. */
  function Stale(w: World, s: set<Int2>): set<Int2>
  {
    set k | k in s && k in w.chunks && w.chunks[k].state == Loaded && w.chunks[k].isDirty
  }

  /** The chunk map with the chunks of `stale` marked clean. */
  function CleanedChunks(chunks: map<Int2, ChunkView>, stale: set<Int2>): map<Int2, ChunkView>
  {
    map k | k in chunks :: if k in stale then chunks[k].(isDirty := false) else chunks[k]
  }

  /** The buffers the chunks of `stale` publish, by entity. */
  function Copies(w: World, stale: set<Int2>): map<Entity, seq<TileBufferElement>>
    requires WellFormed(w)
  {
    map k | k in stale && k in w.chunks && k in w.entityOf :: w.entityOf[k] := TileElements(w.chunks[k].tiles)
  }

  /** UpdateChunkBuffers over the coordinates `s`, in any order: each stale
      chunk with an entity is republished, and each stale chunk is cleaned. */
  function RepublishedOver(w: World, s: set<Int2>): World
    requires WellFormed(w)
  {
    var stale := Stale(w, s);
    w.(chunks := CleanedChunks(w.chunks, stale), buffers := w.buffers + Copies(w, stale))
  }

  /** UpdateChunkBuffers: every active chunk visited once. */
  function Republished(w: World): World
    requires WellFormed(w)
  {
    RepublishedOver(w, w.chunks.Keys)
  }

  /** Visiting no chunk changes nothing. */
  lemma RepublishedOverNothing(w: World)
    requires WellFormed(w)
    ensures RepublishedOver(w, {}) == w
  {
    assert Stale(w, {}) == {};
    assert CleanedChunks(w.chunks, {}) == w.chunks;
    assert Copies(w, {}) == map[];
    assert w.buffers + map[] == w.buffers;
  }

  lemma StaleStep(w: World, s: set<Int2>, k: Int2)
    ensures k in w.chunks && w.chunks[k].state == Loaded && w.chunks[k].isDirty ==>
      Stale(w, s + {k}) == Stale(w, s) + {k}
    ensures !(k in w.chunks && w.chunks[k].state == Loaded && w.chunks[k].isDirty) ==>
      Stale(w, s + {k}) == Stale(w, s)
  {}

  lemma CopiesStep(w: World, stale: set<Int2>, k: Int2)
    requires WellFormed(w) && k !in stale && k in w.chunks
    ensures k in w.entityOf ==>
      Copies(w, stale + {k}) == Copies(w, stale)[w.entityOf[k] := TileElements(w.chunks[k].tiles)]
    ensures k !in w.entityOf ==> Copies(w, stale + {k}) == Copies(w, stale)
  {
    if k in w.entityOf {
      var e := w.entityOf[k];
      var m := Copies(w, stale)[e := TileElements(w.chunks[k].tiles)];
      assert forall j :: j in stale && j in w.chunks && j in w.entityOf ==> w.entityOf[j] != e;
      var m' := Copies(w, stale + {k});
      assert forall x :: x in m <==> x in m';
      assert forall x :: x in m ==> m[x] == m'[x];
    } else {
      assert forall j :: j in stale + {k} && j in w.chunks && j in w.entityOf <==> j in stale && j in w.chunks && j in w.entityOf;
    }
  }

  lemma {:induction false} CleanedStep(w: World, s: set<Int2>, k: Int2)
    requires WellFormed(w) && k !in s
    ensures Cleaned(RepublishedOver(w, s), k) == RepublishedOver(w, s + {k})
  {
    var u := RepublishedOver(w, s);
    var stale := Stale(w, s);
    StaleStep(w, s, k);
    if k in w.chunks && w.chunks[k].state == Loaded && w.chunks[k].isDirty {
      assert u.chunks[k] == w.chunks[k];
      CleanedChunksStep(w.chunks, stale, k);
      CopiesStep(w, stale, k);
      var chunks' := CleanedChunks(w.chunks, stale + {k});
      if k in w.entityOf {
        var e := w.entityOf[k];
        UpdateUnion(w.buffers, Copies(w, stale), e, TileElements(w.chunks[k].tiles));
        assert CopiedToBuffer(u, k) == u.(buffers := u.buffers[e := TileElements(w.chunks[k].tiles)]);
      }
    } else {
      assert Cleaned(u, k) == u;
    }
  }

  /** Cleaning one more chunk updates that chunk's entry only. */
  lemma CleanedChunksStep(chunks: map<Int2, ChunkView>, stale: set<Int2>, k: Int2)
    requires k in chunks
    ensures CleanedChunks(chunks, stale + {k}) == CleanedChunks(chunks, stale)[k := chunks[k].(isDirty := false)]
  {}

  lemma UpdateUnion<K, V>(a: map<K, V>, b: map<K, V>, key: K, v: V)
    ensures (a + b)[key := v] == a + b[key := v]
  {}

  // --- The publication invariant is kept by every step ---

  /** The view a WaitingToLoad chunk has once finalised and published. */
  function LoadedView(v: ChunkView): ChunkView
  {
    v.(state := Loaded, isDirty := false, tempsCreated := false, hasChunkObject := true)
  }

  /** Finalising touches the finalised chunk only. */
  lemma FinalizedChunks(w: World, k: Int2)
    ensures k in w.chunks && w.chunks[k].state == WaitingToLoad ==>
      Finalized(w, k).chunks == w.chunks[k := LoadedView(w.chunks[k])]
    ensures !(k in w.chunks && w.chunks[k].state == WaitingToLoad) ==> Finalized(w, k) == w
  {}

  /** Finalising a WaitingToLoad chunk publishes it under a new entity. */
  lemma FinalizedKeepsPublished(w: World, k: Int2)
    requires Published(w)
    ensures Published(Finalized(w, k))
    ensures k in w.chunks && w.chunks[k].state == WaitingToLoad ==>
      var r := Finalized(w, k);
      k in r.entityOf && r.entityOf[k] == Entity(w.nextEntity) &&
      r.buffers[r.entityOf[k]] == TileElements(w.chunks[k].tiles)
  {
    if k in w.chunks && w.chunks[k].state == WaitingToLoad {
      var e := Entity(w.nextEntity);
      assert k !in w.entityOf;
      assert forall j :: j in w.entityOf ==> w.entityOf[j] != e;
    }
  }

  /** The finalisation loop: each WaitingToLoad coordinate of `keys` becomes
      Loaded and clean, every other chunk keeps its view, and the publication
      invariant is kept. */
  lemma {:induction false} FinalizedAllEffect(w: World, keys: seq<Int2>)
    ensures FinalizedAll(w, keys).chunks.Keys == w.chunks.Keys
    ensures forall k :: k in w.chunks ==>
      FinalizedAll(w, keys).chunks[k] ==
        if k in keys && w.chunks[k].state == WaitingToLoad then LoadedView(w.chunks[k]) else w.chunks[k]
    ensures Published(w) ==> Published(FinalizedAll(w, keys))
    decreases |keys|
  {
    if |keys| > 0 {
      var init, last := keys[..|keys| - 1], keys[|keys| - 1];
      var prev := FinalizedAll(w, init);
      FinalizedAllEffect(w, init);
      FinalizedChunks(prev, last);
      if Published(w) {
        FinalizedKeepsPublished(prev, last);
      }
      assert forall k :: k in keys <==> k in init || k == last;
    }
  }

  /** Unloading removes chunks together with their entities and keeps the
      publication invariant; the entities of the remaining chunks survive. */
  lemma UnloadedAllKeepsPublished(w: World, s: set<Int2>)
    requires Published(w)
    ensures Published(UnloadedAll(w, s))
  {
  }

  /** The buffer a stale chunk publishes is found under its own entity. */
  lemma CopiesAt(w: World, stale: set<Int2>, k: Int2)
    requires WellFormed(w) && k in w.entityOf && k in w.chunks
    ensures k in stale ==>
      w.entityOf[k] in Copies(w, stale) && Copies(w, stale)[w.entityOf[k]] == TileElements(w.chunks[k].tiles)
    ensures k !in stale ==> w.entityOf[k] !in Copies(w, stale)
  {}

  /** UpdateChunkBuffers keeps the invariant and leaves no Loaded chunk dirty;
      it changes no key, state or tile. */
  lemma RepublishedSyncs(w: World)
    requires Published(w)
    ensures var r := Republished(w);
      Published(r) && r.chunks.Keys == w.chunks.Keys && r.entityOf == w.entityOf &&
      (forall k :: k in r.chunks ==>
         r.chunks[k].state == w.chunks[k].state && r.chunks[k].tiles == w.chunks[k].tiles &&
         !(r.chunks[k].state == Loaded && r.chunks[k].isDirty))
  {
    var r := Republished(w);
    var stale := Stale(w, w.chunks.Keys);
    forall k | k in w.entityOf
      ensures r.buffers[w.entityOf[k]] == (if k in stale then TileElements(w.chunks[k].tiles) else w.buffers[w.entityOf[k]])
    {
      CopiesAt(w, stale, k);
    }
  }

  /** Between frames with every buffer current: every chunk is Loaded, clean,
      and its entity's buffer holds its tiles. */
  ghost predicate Synced(w: World)
  {
    Steady(w) &&
    forall k :: k in w.chunks ==>
      !w.chunks[k].isDirty && k in w.entityOf && w.buffers[w.entityOf[k]] == TileElements(w.chunks[k].tiles)
  }

  /** From a steady state, UpdateChunkBuffers brings every buffer up to date. */
  lemma RepublishedIsSynced(w: World)
    requires Steady(w)
    ensures Synced(Republished(w))
  {
    RepublishedSyncs(w);
  }

  /** Every chunk holds one tile per cell of its chunkSize x chunkSize square. */
  predicate Sized(w: World, chunkSize: int)
  {
    forall k :: k in w.chunks ==> |w.chunks[k].tiles| == chunkSize * chunkSize
  }

  /** What the planner's GetCombinedTileBuffers builds from a synced world:
      for every entity the ECS query returns that this system maps to a chunk,
      the combined map holds that chunk's current tiles, and nothing else. So
      every buffer the planner indexes has chunkSize^2 elements, which is
      TileMap.WellFormed, provided the planner's chunk size is this one. */
  lemma {:induction false} SyncedPublishesWellFormedMap(w: World, chunkSize: int, entities: seq<Entity>)
    requires chunkSize > 0 && Synced(w) && Sized(w, chunkSize)
    requires forall e :: e in entities ==>
      e in w.records && w.records[e].chunkCoord in w.entityOf && w.entityOf[w.records[e].chunkCoord] == e
    ensures var m := TileMap.CombinedUpTo(entities, w.records, w.buffers, |entities|);
      TileMap.WellFormed(m, chunkSize) &&
      (forall c :: c in m ==> c in w.chunks && m[c] == TileElements(w.chunks[c].tiles)) &&
      (forall c :: c in w.entityOf && w.entityOf[c] in entities ==> c in m)
  {
    var m := TileMap.CombinedUpTo(entities, w.records, w.buffers, |entities|);
    forall c | c in m
      ensures c in w.chunks && m[c] == TileElements(w.chunks[c].tiles)
    {
      TileMap.CombinedUpToContents(entities, w.records, w.buffers, |entities|, c);
      var i :| 0 <= i < |entities| && TileMap.Publishes(entities, w.records, w.buffers, i, c) &&
        m[c] == w.buffers[entities[i]];
      assert w.entityOf[c] == entities[i];
    }
    forall c | c in w.entityOf && w.entityOf[c] in entities
      ensures c in m
    {
      var i :| 0 <= i < |entities| && entities[i] == w.entityOf[c];
      assert TileMap.Publishes(entities, w.records, w.buffers, i, c);
      TileMap.CombinedUpToContents(entities, w.records, w.buffers, |entities|, c);
    }
  }

  // ---------------------------------------------------------------------
  // Chunk
  // ---------------------------------------------------------------------

  /** One streamed chunk. `position` and `chunkSize` are never reassigned after
      construction. */
  class Chunk {
    const position: Int2
    const chunkSize: int
    var tiles: seq<Tile>
    var tilesCreated: bool
    var isDirty: bool
    var hasChunkObject: bool
    var state: ChunkState
    var vertices: seq<Vec3>
    var verticesCreated: bool
    var triangles: seq<int>
    var trianglesCreated: bool
    var uvs: seq<Vec2>
    var uvsCreated: bool

    function View(): ChunkView
      reads this
    {
      ChunkView(state, isDirty, tiles, tilesCreated, verticesCreated || trianglesCreated || uvsCreated, hasChunkObject)
    }

    /** A new chunk is Unloaded and clean, and owns chunkSize^2 zeroed tiles. */
    constructor (chunkSize: int, position: Int2)
      ensures this.position == position && this.chunkSize == chunkSize
      ensures View() == NewChunk(chunkSize)
    {
      this.position := position;
      this.chunkSize := chunkSize;
      isDirty := false;
      state := Unloaded;
      SquareNonnegative(chunkSize);
      tiles := seq(chunkSize * chunkSize, _ => ZeroTile);
      tilesCreated := true;
      vertices, triangles, uvs := [], [], [];
      verticesCreated, trianglesCreated, uvsCreated := false, false, false;
      hasChunkObject := false;
    }

    /** The row-major index of a local tile: in range and inverted by % and /,
        hence injective on the chunk's square. */
    function GetTileIndex(x: int, y: int): (i: int)
      ensures 0 <= x < chunkSize && 0 <= y < chunkSize ==>
        0 <= i < chunkSize * chunkSize && i % chunkSize == x && i / chunkSize == y
    {
      if 0 <= x < chunkSize && 0 <= y < chunkSize then
        RowMajorInRange(x, y, chunkSize);
        x + y * chunkSize
      else
        x + y * chunkSize
    }

    /** Allocates the three mesh buffers (4, 6 and 4 slots per tile). */
    method InitTempArrays()
      modifies this
      ensures View() == old(View()).(tempsCreated := true)
      ensures verticesCreated && trianglesCreated && uvsCreated
      ensures vertices == seq(chunkSize * chunkSize * 4, _ => Vec3(0.0, 0.0, 0.0))
      ensures triangles == seq(chunkSize * chunkSize * 6, _ => 0)
      ensures uvs == seq(chunkSize * chunkSize * 4, _ => Vec2(0.0, 0.0))
    {
      SquareNonnegative(chunkSize);
      vertices := seq(chunkSize * chunkSize * 4, _ => Vec3(0.0, 0.0, 0.0));
      verticesCreated := true;
      triangles := seq(chunkSize * chunkSize * 6, _ => 0);
      trianglesCreated := true;
      uvs := seq(chunkSize * chunkSize * 4, _ => Vec2(0.0, 0.0));
      uvsCreated := true;
    }

    /** Frees whichever mesh buffers are allocated. */
    method DisposeTempArrays()
      modifies this
      ensures View() == old(View()).(tempsCreated := false)
      ensures !verticesCreated && !trianglesCreated && !uvsCreated
      ensures vertices == old(vertices) && triangles == old(triangles) && uvs == old(uvs)
    {
      if verticesCreated { verticesCreated := false; }
      if trianglesCreated { trianglesCreated := false; }
      if uvsCreated { uvsCreated := false; }
    }

    /** Frees the tile array if it is allocated. */
    method DisposePermArrays()
      modifies this
      ensures View() == old(View()).(tilesCreated := false)
      ensures vertices == old(vertices) && triangles == old(triangles) && uvs == old(uvs)
      ensures verticesCreated == old(verticesCreated) && trianglesCreated == old(trianglesCreated)
      ensures uvsCreated == old(uvsCreated)
    {
      if tilesCreated { tilesCreated := false; }
    }
  }

  lemma SquareNonnegative(n: int)
    ensures n * n >= 0
  {
    if n < 0 { MulNonnegative(-n, -n); }
  }

  // ---------------------------------------------------------------------
  // ChunkingSystem
  // ---------------------------------------------------------------------

  /** The chunk streaming manager. Its inspector settings are fixed for its
      lifetime; `perlin` stands for Mathf.PerlinNoise, which is not part of
      this model. Each active chunk is held as its view (see Chunk.View), and
      the ECS world as the part of it this system writes. */
  class ChunkingSystem {
    const chunkSize: int
    const loadRadius: int
    const noiseScale: real
    const tileAtlasDimension: int
    const tileSize: real
    const perlin: (real, real) -> real
    var tileOffset: real
    var uvOffsets: seq<Vec2>
    var lastCameraChunk: Int2
    var activeChunks: map<Int2, ChunkView>
    var chunkToEntityMap: map<Int2, Entity>
    /** The ChunkData component of each entity. */
    var chunkRecords: map<Entity, ChunkData>
    /** The TileBufferElement buffer of each entity. */
    var tileBuffers: map<Entity, seq<TileBufferElement>>
    /** The index EntityManager.CreateEntity hands out next. */
    var nextEntity: nat

    /** The system's state as a value. */
    ghost function Abstract(): World
      reads this`activeChunks, this`chunkToEntityMap, this`chunkRecords, this`tileBuffers, this`nextEntity
    {
      World(activeChunks, chunkToEntityMap, chunkRecords, tileBuffers, nextEntity)
    }

    /** The settings the code relies on (a positive chunk size, an atlas of
      at least 8 x 8 slots) and well-formed entity bookkeeping. */
    ghost predicate Configured()
      reads this
    {
      chunkSize > 0 && tileAtlasDimension >= 8 && WellFormed(Abstract())
    }

    /** After Start: the UV table has one entry per atlas slot, so every tile
      type's slot is in it. */
    ghost predicate Valid()
      reads this
    {
      Configured() && |uvOffsets| == tileAtlasDimension * tileAtlasDimension &&
      forall t: TileType :: AtlasIndex(t) < |uvOffsets|
    }
    // --- specification of the loading pass ---

    /** The tiles the noise job generates for chunk `k`. */
    function Generated(k: Int2): (tiles: seq<Tile>)
      requires chunkSize > 0
      ensures |tiles| == chunkSize * chunkSize
    {
      NoiseJob.GeneratedTiles(chunkSize, noiseScale, k.x * chunkSize, k.y * chunkSize, perlin)
    }

    /** One pass of LoadChunksAsync's scheduling loop: Loaded and
      WaitingToUnload chunks are skipped; an absent coordinate gets a new
      WaitingToLoad chunk; the chunk then has its buffers allocated and its
      tiles generated. */
    function ScheduledView(chunks: map<Int2, ChunkView>, k: Int2): ChunkView
      requires chunkSize > 0
    {
      if k in chunks && (chunks[k].state == Loaded || chunks[k].state == WaitingToUnload) then chunks[k]
      else if k in chunks then chunks[k].(tiles := Generated(k), tempsCreated := true)
      else ChunkView(WaitingToLoad, false, Generated(k), true, true, false)
    }

    function Scheduled(w: World, k: Int2): World
      requires chunkSize > 0
    {
      w.(chunks := w.chunks[k := ScheduledView(w.chunks, k)])
    }

    function ScheduledAll(w: World, keys: seq<Int2>): World
      requires chunkSize > 0
      decreases |keys|
    {
      if |keys| == 0 then w else Scheduled(ScheduledAll(w, keys[..|keys| - 1]), keys[|keys| - 1])
    }

    /** LoadChunksAsync: schedule every coordinate, then finalise every one. */
    function LoadedAll(w: World, keys: seq<Int2>): World
      requires chunkSize > 0
    {
      FinalizedAll(ScheduledAll(w, keys), keys)
    }

    /** UpdateChunks for a camera in chunk `cameraChunk`: load the square, then
      unload every other chunk. */
    function Updated(w: World, cameraChunk: Int2): (r: World)
      requires chunkSize > 0
      ensures WellFormed(w) ==> WellFormed(r)
    {
      var keep := KeepOrder(cameraChunk, loadRadius);
      var loaded := LoadedAll(w, keep);
      if WellFormed(w) then
        LoadedAllWellFormed(w, keep);
        UnloadedAllWellFormed(loaded, loaded.chunks.Keys - set k | k in keep);
        UnloadedAll(loaded, loaded.chunks.Keys - set k | k in keep)
      else
        UnloadedAll(loaded, loaded.chunks.Keys - set k | k in keep)
    }

    /** The loading pass keeps the entity bookkeeping well formed. */
    lemma LoadedAllWellFormed(w: World, keys: seq<Int2>)
      requires chunkSize > 0 && WellFormed(w)
      ensures WellFormed(LoadedAll(w, keys))
    {
      ScheduledAllEffect(w, keys);
      FinalizedAllWellFormed(ScheduledAll(w, keys), keys);
    }

    /** The scheduling loop touches only the chunk map, and there only the
      coordinates it visits, each as one scheduling pass would. */
    lemma {:induction false} ScheduledAllEffect(w: World, keys: seq<Int2>)
      requires chunkSize > 0
      ensures var r := ScheduledAll(w, keys);
        r == w.(chunks := r.chunks) &&
        r.chunks.Keys == w.chunks.Keys + (set k | k in keys) &&
        (forall k :: k in r.chunks ==> r.chunks[k] == if k in keys then ScheduledView(w.chunks, k) else w.chunks[k])
      decreases |keys|
    {
      if |keys| > 0 {
        var init, last := keys[..|keys| - 1], keys[|keys| - 1];
        ScheduledAllEffect(w, init);
        assert forall k :: k in keys <==> k in init || k == last;
        var before := ScheduledAll(w, init);
        assert ScheduledView(before.chunks, last) == ScheduledView(w.chunks, last);
      }
    }

    /** Scheduling keeps the publication invariant: it never touches a
      Loaded chunk and never makes a chunk Loaded. */
    lemma ScheduledAllKeepsPublished(w: World, keys: seq<Int2>)
      requires chunkSize > 0 && Published(w)
      ensures Published(ScheduledAll(w, keys))
    {
      ScheduledAllEffect(w, keys);
      var r := ScheduledAll(w, keys);
      assert forall k :: k in r.chunks ==> (r.chunks[k].state == Loaded <==> k in w.chunks && w.chunks[k].state == Loaded);
      assert forall k :: k in w.chunks && w.chunks[k].state == Loaded ==> r.chunks[k] == w.chunks[k];
    }

    /** LoadChunksAsync never touches a Loaded or WaitingToUnload chunk; it
      brings every absent or WaitingToLoad coordinate it is given to Loaded,
      with freshly generated tiles, clean, with its mesh object and without
      temporary buffers; it leaves all other chunks alone; and it keeps the
      publication invariant. */
    lemma {:induction false} LoadedAllEffect(w: World, keys: seq<Int2>)
      requires chunkSize > 0
      ensures var r := LoadedAll(w, keys);
        r.chunks.Keys == w.chunks.Keys + (set k | k in keys) &&
        (forall k :: k in w.chunks && (w.chunks[k].state == Loaded || w.chunks[k].state == WaitingToUnload) ==>
           r.chunks[k] == w.chunks[k]) &&
        (forall k :: k in keys && k !in w.chunks ==>
           r.chunks[k] == ChunkView(Loaded, false, Generated(k), true, false, true)) &&
        (forall k :: k in keys && k in w.chunks && w.chunks[k].state == WaitingToLoad ==>
           r.chunks[k] == LoadedView(w.chunks[k].(tiles := Generated(k)))) &&
        (forall k :: k in keys && k in w.chunks && w.chunks[k].state == Unloaded ==>
           r.chunks[k] == w.chunks[k].(tiles := Generated(k), tempsCreated := true)) &&
        (forall k :: k in w.chunks && k !in keys ==> r.chunks[k] == w.chunks[k])
      ensures Published(w) ==> Published(LoadedAll(w, keys))
    {
      var scheduled := ScheduledAll(w, keys);
      ScheduledAllEffect(w, keys);
      if Published(w) {
        ScheduledAllKeepsPublished(w, keys);
      }
      FinalizedAllEffect(scheduled, keys);
    }

    /** After UpdateChunks from a state where every chunk is loading or loaded,
      the chunk map holds exactly the (2r+1)^2 chunks of the square around the
      camera chunk, and every one of them is Loaded. */
    lemma {:induction false} UpdatedKeepsSquare(w: World, cameraChunk: Int2)
      requires chunkSize > 0 && Live(w)
      ensures forall k :: k in Updated(w, cameraChunk).chunks <==> InSquare(k, cameraChunk, loadRadius)
      ensures forall k :: k in Updated(w, cameraChunk).chunks ==> Updated(w, cameraChunk).chunks[k].state == Loaded
    {
      var keep := KeepOrder(cameraChunk, loadRadius);
      var loaded := LoadedAll(w, keep);
      KeepOrderIsSquare(cameraChunk, loadRadius);
      LoadedAllEffect(w, keep);
      assert forall k :: k in keep ==> k in loaded.chunks && loaded.chunks[k].state == Loaded;
    }

    /** UpdateChunks keeps the publication invariant. */
    lemma {:induction false} UpdatedKeepsPublished(w: World, cameraChunk: Int2)
      requires chunkSize > 0 && Published(w)
      ensures Published(Updated(w, cameraChunk))
    {
      var keep := KeepOrder(cameraChunk, loadRadius);
      var loaded := LoadedAll(w, keep);
      LoadedAllEffect(w, keep);
      UnloadedAllKeepsPublished(loaded, loaded.chunks.Keys - set k | k in keep);
    }

    /** A steady state stays steady through UpdateChunks. */
    lemma {:induction false} UpdatedKeepsSteady(w: World, cameraChunk: Int2)
      requires chunkSize > 0 && Steady(w)
      ensures Steady(Updated(w, cameraChunk))
    {
      UpdatedKeepsSquare(w, cameraChunk);
      UpdatedKeepsPublished(w, cameraChunk);
    }

    /** A second UpdateChunks for the same camera chunk loads and unloads
      nothing. */
    lemma {:induction false} UpdatedIdempotent(w: World, cameraChunk: Int2)
      requires chunkSize > 0 && Live(w)
      ensures Updated(Updated(w, cameraChunk), cameraChunk) == Updated(w, cameraChunk)
    {
      var u := Updated(w, cameraChunk);
      var keep := KeepOrder(cameraChunk, loadRadius);
      UpdatedKeepsSquare(w, cameraChunk);
      KeepOrderIsSquare(cameraChunk, loadRadius);
      ScheduledAllEffect(u, keep);
      var scheduled := ScheduledAll(u, keep);
      assert scheduled.chunks == u.chunks;
      assert scheduled == u;
      FinalizedAllEffect(u, keep);
      var loaded := FinalizedAll(u, keep);
      assert loaded.chunks == u.chunks;
      assert FinalizedAll(u, keep) == u by {
        FinalizedAllIdle(u, keep);
      }
      assert loaded.chunks.Keys - (set k | k in keep) == {};
      UnloadedNothing(u, {});
    }


    /** One frame of Update: UpdateChunks if the camera changed chunk, then
      UpdateChunkBuffers. */
    function Frame(w: World, moved: bool, cameraChunk: Int2): World
      requires chunkSize > 0 && WellFormed(w)
    {
      Republished(if moved then Updated(w, cameraChunk) else w)
    }

    /** From a steady state, a frame ends steady with every buffer current. */
    lemma FrameIsSynced(w: World, moved: bool, cameraChunk: Int2)
      requires chunkSize > 0 && Steady(w)
      ensures Synced(Frame(w, moved, cameraChunk))
    {
      if moved {
        UpdatedKeepsSteady(w, cameraChunk);
      }
      RepublishedIsSynced(if moved then Updated(w, cameraChunk) else w);
    }

    /** A frame keeps every chunk at chunkSize^2 tiles: a chunk it loads gets
      the noise job's tiles, and republishing changes no tiles. */
    lemma {:induction false} FrameKeepsSized(w: World, moved: bool, cameraChunk: Int2)
      requires chunkSize > 0 && Steady(w) && Sized(w, chunkSize)
      ensures Sized(Frame(w, moved, cameraChunk), chunkSize)
    {
      if moved {
        var keep := KeepOrder(cameraChunk, loadRadius);
        LoadedAllEffect(w, keep);
        assert Sized(LoadedAll(w, keep), chunkSize);
        UpdatedKeepsSteady(w, cameraChunk);
      }
      RepublishedSyncs(if moved then Updated(w, cameraChunk) else w);
    }

    /** After a frame from a steady state, the map the planner combines from
      this system's entities is well formed for its chunk size
      (TileMap.WellFormed) and holds exactly the loaded chunks' tiles. */
    lemma FrameFeedsPlanner(w: World, moved: bool, cameraChunk: Int2, entities: seq<Entity>)
      requires chunkSize > 0 && Steady(w) && Sized(w, chunkSize)
      requires var f := Frame(w, moved, cameraChunk);
        forall e :: e in entities ==>
          e in f.records && f.records[e].chunkCoord in f.entityOf && f.entityOf[f.records[e].chunkCoord] == e
      ensures var f := Frame(w, moved, cameraChunk);
        var m := TileMap.CombinedUpTo(entities, f.records, f.buffers, |entities|);
        TileMap.WellFormed(m, chunkSize) &&
        forall c :: c in m ==> c in f.chunks && m[c] == TileElements(f.chunks[c].tiles)
    {
      FrameIsSynced(w, moved, cameraChunk);
      FrameKeepsSized(w, moved, cameraChunk);
      SyncedPublishesWellFormedMap(Frame(w, moved, cameraChunk), chunkSize, entities);
    }

    // --- the operations ---

    /** A new system, with the field initialisers of the MonoBehaviour: no
      chunk, no entity, no UV table yet, tileOffset 1/8. */
    constructor (chunkSize: int, loadRadius: int, noiseScale: real, tileAtlasDimension: int, tileSize: real,
                 perlin: (real, real) -> real)
      requires chunkSize > 0 && tileAtlasDimension >= 8
      ensures this.chunkSize == chunkSize && this.loadRadius == loadRadius && this.noiseScale == noiseScale
      ensures this.tileAtlasDimension == tileAtlasDimension && this.tileSize == tileSize && this.perlin == perlin
      ensures Configured() && Steady(Abstract())
      ensures Abstract() == World(map[], map[], map[], map[], 0)
      ensures tileOffset == 0.125 && uvOffsets == [] && lastCameraChunk == Int2(0, 0)
    {
      this.chunkSize := chunkSize;
      this.loadRadius := loadRadius;
      this.noiseScale := noiseScale;
      this.tileAtlasDimension := tileAtlasDimension;
      this.tileSize := tileSize;
      this.perlin := perlin;
      tileOffset := 0.125;
      uvOffsets := [];
      lastCameraChunk := Int2(0, 0);
      activeChunks := map[];
      chunkToEntityMap := map[];
      chunkRecords := map[];
      tileBuffers := map[];
      nextEntity := 0;
    }

    /** Start: sets tileOffset to one atlas slot, fills the UV table and
      loads the square around the camera. */
    method Start(cameraPosition: Vec3)
      requires Configured()
      modifies this`tileOffset, this`uvOffsets
      modifies this`activeChunks, this`chunkToEntityMap, this`chunkRecords, this`tileBuffers, this`nextEntity
      ensures Valid()
      ensures tileOffset == 1.0 / tileAtlasDimension as real
      ensures uvOffsets == UvOffsetTable(tileAtlasDimension, tileOffset)
      ensures Abstract() == Updated(old(Abstract()), WorldToChunk(cameraPosition, chunkSize))
      ensures old(Steady(Abstract())) ==> Steady(Abstract())
    {
      ghost var w0 := Abstract();
      if Steady(w0) {
        UpdatedKeepsSteady(w0, WorldToChunk(cameraPosition, chunkSize));
      }
      tileOffset := 1.0 / tileAtlasDimension as real;
      PreComputeUVOffsets();
      MeshJob.AtlasDimensionSuffices(tileAtlasDimension);
      UpdateChunks(cameraPosition);
    }

    /** Update: when the camera has moved to another chunk, remember it and
      run UpdateChunks; then republish the dirty chunks. */
    method Update(cameraPosition: Vec3)
      requires Valid()
      modifies this`lastCameraChunk
      modifies this`activeChunks, this`chunkToEntityMap, this`chunkRecords, this`tileBuffers, this`nextEntity
      ensures Valid()
      ensures lastCameraChunk == WorldToChunk(cameraPosition, chunkSize)
      ensures Abstract() == Frame(old(Abstract()), lastCameraChunk != old(lastCameraChunk), lastCameraChunk)
    {
      var currentCameraChunk := WorldToChunk(cameraPosition, chunkSize);
      if currentCameraChunk != lastCameraChunk {
        lastCameraChunk := currentCameraChunk;
        UpdateChunks(cameraPosition);
      }
      UpdateChunkBuffers();
    }

    /** A frame in which the camera stays in its chunk loads and unloads
      nothing: the chunk map keeps its keys, and every chunk its state, tiles
      and mesh object; no entity is created or destroyed. */
    lemma FrameWithoutMoveStreamsNothing(w: World, cameraChunk: Int2)
      requires chunkSize > 0 && WellFormed(w)
      ensures Frame(w, false, cameraChunk).chunks.Keys == w.chunks.Keys
      ensures Frame(w, false, cameraChunk).entityOf == w.entityOf
      ensures Frame(w, false, cameraChunk).records == w.records
      ensures Frame(w, false, cameraChunk).nextEntity == w.nextEntity
      ensures forall k :: k in w.chunks ==>
        Frame(w, false, cameraChunk).chunks[k] == w.chunks[k].(isDirty := w.chunks[k].isDirty && k !in Stale(w, w.chunks.Keys))
    {
    }

    /** The first loop of UpdateChunks: the square around `cameraChunk`, in
      the order the two nested loops add it to the set. */
    method ChunksToKeep(cameraChunk: Int2) returns (chunksToKeep: seq<Int2>)
      ensures chunksToKeep == KeepOrder(cameraChunk, loadRadius)
    {
      var side := Side(loadRadius);
      chunksToKeep := [];
      var x := -loadRadius;
      while x <= loadRadius
        invariant x >= -loadRadius && (loadRadius >= 0 ==> x <= loadRadius + 1)
        invariant |chunksToKeep| == (x + loadRadius) * side
        invariant forall i :: 0 <= i < |chunksToKeep| ==>
          chunksToKeep[i] == Int2(cameraChunk.x - loadRadius + i / side, cameraChunk.y - loadRadius + i % side)
      {
        var y := -loadRadius;
        while y <= loadRadius
          invariant -loadRadius <= y <= loadRadius + 1
          invariant |chunksToKeep| == (x + loadRadius) * side + (y + loadRadius)
          invariant forall i :: 0 <= i < |chunksToKeep| ==>
            chunksToKeep[i] == Int2(cameraChunk.x - loadRadius + i / side, cameraChunk.y - loadRadius + i % side)
        {
          DivModUnique(|chunksToKeep|, side, x + loadRadius, y + loadRadius);
          chunksToKeep := chunksToKeep + [Int2(cameraChunk.x + x, cameraChunk.y + y)];
          y := y + 1;
        }
        MulDistributes(x + loadRadius, side);
        x := x + 1;
      }
      assert |chunksToKeep| == side * side;
    }

    /** UpdateChunks: load the square around the camera's chunk, then unload
      every active chunk outside it. */
    method UpdateChunks(cameraPosition: Vec3)
      requires Valid()
      modifies this`activeChunks, this`chunkToEntityMap, this`chunkRecords, this`tileBuffers, this`nextEntity
      ensures Valid()
      ensures Abstract() == Updated(old(Abstract()), WorldToChunk(cameraPosition, chunkSize))
    {
      var cameraChunk := WorldToChunk(cameraPosition, chunkSize);
      var chunksToKeep := ChunksToKeep(cameraChunk);
      LoadChunksAsync(chunksToKeep);
      ghost var loaded := Abstract();
      var chunksToRemove: set<Int2> := {};
      var unvisited := activeChunks.Keys;
      while unvisited != {}
        invariant unvisited <= loaded.chunks.Keys
        invariant chunksToRemove == set k | k in loaded.chunks.Keys - unvisited && k !in chunksToKeep
        decreases unvisited
      {
        var chunkCoord :| chunkCoord in unvisited;
        if chunkCoord !in chunksToKeep {
          chunksToRemove := chunksToRemove + {chunkCoord};
        }
        unvisited := unvisited - {chunkCoord};
      }
      var pending := chunksToRemove;
      assert chunksToRemove - pending == {};
      UnloadedNothing(loaded, {});
      while pending != {}
        invariant pending <= chunksToRemove
        invariant Valid()
        invariant Abstract() == UnloadedAll(loaded, chunksToRemove - pending)
        decreases pending
      {
        var chunkCoord :| chunkCoord in pending;
        UnloadedStep(loaded, chunksToRemove - pending, chunkCoord);
        var detached := UnloadChunk(chunkCoord);
        assert chunksToRemove - pending + {chunkCoord} == chunksToRemove - (pending - {chunkCoord});
        pending := pending - {chunkCoord};
      }
      assert chunksToRemove - {} == loaded.chunks.Keys - set k | k in chunksToKeep;
    }

    /** LoadChunksAsync: the scheduling loop, the join, then the
      finalisation loop. */
    method LoadChunksAsync(chunksToLoad: seq<Int2>)
      requires Valid()
      modifies this`activeChunks, this`chunkToEntityMap, this`chunkRecords, this`tileBuffers, this`nextEntity
      ensures Valid()
      ensures Abstract() == LoadedAll(old(Abstract()), chunksToLoad)
    {
      ghost var w0 := Abstract();
      var handles: seq<Mesh> := [];
      var index := 0;
      while index < |chunksToLoad|
        invariant 0 <= index <= |chunksToLoad|
        invariant Valid()
        invariant Abstract() == ScheduledAll(w0, chunksToLoad[..index])
      {
        var chunkCoord := chunksToLoad[index];
        assert chunksToLoad[..index + 1][..index] == chunksToLoad[..index];
        if chunkCoord !in activeChunks ||
           (activeChunks[chunkCoord].state != Loaded && activeChunks[chunkCoord].state != WaitingToUnload) {
          var chunk := if chunkCoord in activeChunks then activeChunks[chunkCoord]
                       else NewChunk(chunkSize).(state := WaitingToLoad);
          var scheduled, handle := ScheduleChunkJob(chunkCoord, chunk);
          activeChunks := activeChunks[chunkCoord := scheduled];
          handles := handles + [handle];
        }
        index := index + 1;
      }
      assert chunksToLoad[..|chunksToLoad|] == chunksToLoad;
      ghost var scheduled := Abstract();
      index := 0;
      while index < |chunksToLoad|
        invariant 0 <= index <= |chunksToLoad|
        invariant Valid()
        invariant Abstract() == FinalizedAll(scheduled, chunksToLoad[..index])
      {
        var chunkCoord := chunksToLoad[index];
        assert chunksToLoad[..index + 1][..index] == chunksToLoad[..index];
        if chunkCoord in activeChunks && activeChunks[chunkCoord].state == WaitingToLoad {
          var chunk := FinalizeChunkMesh(chunkCoord, activeChunks[chunkCoord]);
          activeChunks := activeChunks[chunkCoord := chunk.(state := Loaded)];
          OnChunkLoaded(chunkCoord);
        }
        index := index + 1;
      }
    }

    /** ScheduleChunkJob, with the job chain run to completion: the chunk's
      mesh buffers are allocated, the noise job fills its n^2 tiles and the
      mesh job meshes them against the UV table. The completed mesh is what
      the returned handle stands for; `scheduled` is the chunk afterwards. */
    method ScheduleChunkJob(chunkCoord: Int2, chunk: ChunkView) returns (scheduled: ChunkView, mesh: Mesh)
      requires chunkSize > 0 && forall t: TileType :: AtlasIndex(t) < |uvOffsets|
      ensures scheduled == chunk.(tiles := Generated(chunkCoord), tempsCreated := true)
      ensures mesh == Mesh(MeshJob.MeshVertices(chunkSize * chunkSize, chunkSize, tileSize),
                           MeshJob.MeshTriangles(chunkSize * chunkSize),
                           MeshJob.MeshUvs(chunkSize * chunkSize, Generated(chunkCoord), uvOffsets, tileOffset))
    {
      SquareNonnegative(chunkSize);
      var count := chunkSize * chunkSize;
      var tiles := new Tile[count];
      NoiseJob.Run(tiles, chunkSize, noiseScale, chunkCoord.x * chunkSize, chunkCoord.y * chunkSize, perlin);
      var vertices := new Vec3[4 * count];
      var triangles := new int[6 * count];
      var uvs := new Vec2[4 * count];
      MeshJob.Execute(vertices, triangles, uvs, uvOffsets, tiles[..], chunkSize, tileSize, tileOffset);
      scheduled := chunk.(tiles := tiles[..], tempsCreated := true);
      mesh := Mesh(vertices[..], triangles[..], uvs[..]);
    }

    /** FinalizeChunkMesh: the mesh goes to a new GameObject placed at the
      chunk's world position, and the temporary buffers are freed. */
    method FinalizeChunkMesh(chunkCoord: Int2, chunk: ChunkView) returns (finalized: ChunkView)
      ensures finalized == chunk.(tempsCreated := false, hasChunkObject := true)
    {
      finalized := chunk.(tempsCreated := false);
      finalized := finalized.(hasChunkObject := true);
    }

    /** UnloadChunk: a WaitingToLoad or Loaded chunk is removed and its entity
      destroyed. `detached` is the removed chunk as any remaining reference to
      it sees it: Unloaded (if it was loading) or WaitingToUnload, with its
      buffers freed and, if it was Loaded, its GameObject destroyed. */
    method UnloadChunk(chunkCoord: Int2) returns (detached: Option<ChunkView>)
      requires Configured()
      modifies this`activeChunks, this`chunkToEntityMap, this`chunkRecords, this`tileBuffers
      ensures Configured()
      ensures Abstract() == Removed(old(Abstract()), chunkCoord)
      ensures detached.Some? <==>
        chunkCoord in old(activeChunks) &&
        (old(activeChunks)[chunkCoord].state == WaitingToLoad || old(activeChunks)[chunkCoord].state == Loaded)
      ensures detached.Some? && old(activeChunks)[chunkCoord].state == WaitingToLoad ==>
        detached.value == old(activeChunks)[chunkCoord].(state := Unloaded, tempsCreated := false, tilesCreated := false)
      ensures detached.Some? && old(activeChunks)[chunkCoord].state == Loaded ==>
        detached.value == old(activeChunks)[chunkCoord].(state := WaitingToUnload, tempsCreated := false,
                                                         tilesCreated := false, hasChunkObject := false)
    {
      detached := None;
      if chunkCoord in activeChunks {
        var chunk := activeChunks[chunkCoord];
        if chunk.state == WaitingToLoad {
          chunk := chunk.(state := Unloaded);
          chunk := chunk.(tempsCreated := false);
          chunk := chunk.(tilesCreated := false);
          activeChunks := activeChunks - {chunkCoord};
          OnChunkUnloaded(chunkCoord);
          detached := Some(chunk);
        } else if chunk.state == Loaded {
          chunk := chunk.(state := WaitingToUnload);
          chunk := chunk.(tempsCreated := false);
          chunk := chunk.(tilesCreated := false);
          if chunk.hasChunkObject {
            chunk := chunk.(hasChunkObject := false);
          }
          activeChunks := activeChunks - {chunkCoord};
          OnChunkUnloaded(chunkCoord);
          detached := Some(chunk);
        }
      }
    }

    /** PreComputeUVOffsets: slot i of the atlas gets the offset of column
      i % dim and row i / dim. */
    method PreComputeUVOffsets()
      requires tileAtlasDimension > 0
      modifies this`uvOffsets
      ensures uvOffsets == UvOffsetTable(tileAtlasDimension, tileOffset)
    {
      SquareNonnegative(tileAtlasDimension);
      var offsets := new Vec2[tileAtlasDimension * tileAtlasDimension];
      for i := 0 to offsets.Length
        invariant forall j :: 0 <= j < i ==> offsets[j] == UvOffsetTable(tileAtlasDimension, tileOffset)[j]
      {
        var x := i % tileAtlasDimension;
        var y := i / tileAtlasDimension;
        offsets[i] := Vec2(x as real * tileOffset, y as real * tileOffset);
      }
      uvOffsets := offsets[..];
    }

    /** OnChunkLoaded: a Loaded chunk gets a new entity carrying its
      ChunkData and a tile buffer, is mapped to it, has its tiles copied and
      is marked clean. */
    method OnChunkLoaded(chunkCoord: Int2)
      requires Configured()
      modifies this`activeChunks, this`chunkToEntityMap, this`chunkRecords, this`tileBuffers, this`nextEntity
      ensures Configured()
      ensures Abstract() == ChunkLoaded(old(Abstract()), chunkCoord)
    {
      if chunkCoord in activeChunks && activeChunks[chunkCoord].state == Loaded {
        var chunk := activeChunks[chunkCoord];
        var entity := Entity(nextEntity);
        var data := ChunkData(chunkCoord, |chunk.tiles|);
        NewEntityWellFormed(chunkToEntityMap, chunkRecords, tileBuffers, nextEntity, chunkCoord, data);
        nextEntity := nextEntity + 1;
        chunkRecords := chunkRecords[entity := data];
        tileBuffers := tileBuffers[entity := []];
        chunkToEntityMap := chunkToEntityMap[chunkCoord := entity];
        CopyTileDataToBuffer(chunkCoord);
        activeChunks := activeChunks[chunkCoord := chunk.(isDirty := false)];
      }
    }

    /** OnChunkUnloaded: the chunk's entity, if it has one, is destroyed. */
    method OnChunkUnloaded(chunkCoord: Int2)
      requires Configured()
      modifies this`chunkToEntityMap, this`chunkRecords, this`tileBuffers
      ensures Configured()
      ensures Abstract() == ChunkUnloaded(old(Abstract()), chunkCoord)
    {
      if chunkCoord in chunkToEntityMap {
        ChunkUnloadedWellFormed(Abstract(), chunkCoord);
        var entity := chunkToEntityMap[chunkCoord];
        chunkRecords := chunkRecords - {entity};
        tileBuffers := tileBuffers - {entity};
        chunkToEntityMap := chunkToEntityMap - {chunkCoord};
      }
    }

    /** UpdateChunkBuffers: every active chunk is visited once, in dictionary
      order; a Loaded, dirty one is copied to its buffer and marked clean. */
    method UpdateChunkBuffers()
      requires Configured()
      modifies this`activeChunks, this`tileBuffers
      ensures Configured()
      ensures Abstract() == Republished(old(Abstract()))
    {
      ghost var w0 := Abstract();
      ghost var visited: set<Int2> := {};
      var unvisited := activeChunks.Keys;
      RepublishedOverNothing(w0);
      while unvisited != {}
        invariant unvisited !! visited && unvisited + visited == w0.chunks.Keys
        invariant Configured()
        invariant Abstract() == RepublishedOver(w0, visited)
        decreases unvisited
      {
        var chunkCoord :| chunkCoord in unvisited;
        CleanedStep(w0, visited, chunkCoord);
        var chunk := activeChunks[chunkCoord];
        if chunk.state == Loaded && chunk.isDirty {
          CopyTileDataToBuffer(chunkCoord);
          activeChunks := activeChunks[chunkCoord := chunk.(isDirty := false)];
        }
        visited, unvisited := visited + {chunkCoord}, unvisited - {chunkCoord};
      }
    }

    /** CopyTileDataToBuffer: a Loaded chunk with an entity has its buffer
      resized to its tile count and overwritten slot by slot; otherwise the
      call only logs a warning. */
    method CopyTileDataToBuffer(chunkCoord: Int2)
      requires Configured()
      modifies this`tileBuffers
      ensures Configured()
      ensures Abstract() == CopiedToBuffer(old(Abstract()), chunkCoord)
    {
      if chunkCoord !in activeChunks || activeChunks[chunkCoord].state != Loaded {
        return;
      }
      if chunkCoord !in chunkToEntityMap {
        return;
      }
      var entity := chunkToEntityMap[chunkCoord];
      var tiles := activeChunks[chunkCoord].tiles;
      var buffer := ResizedUninitialized(tileBuffers[entity], |tiles|);
      var i := 0;
      while i < |tiles|
        invariant 0 <= i <= |tiles| == |buffer|
        invariant buffer[..i] == TileElements(tiles)[..i]
      {
        buffer := buffer[i := TileBufferElement(tiles[i])];
        i := i + 1;
      }
      assert buffer == buffer[..i] == TileElements(tiles)[..i] == TileElements(tiles);
      tileBuffers := tileBuffers[entity := buffer];
    }
  }

  /** The arrays a completed mesh job leaves behind. */
  datatype Mesh = Mesh(vertices: seq<Vec3>, triangles: seq<int>, uvs: seq<Vec2>)

  /** A chunk as `new Chunk(chunkSize, coord)` leaves it. */
  function NewChunk(chunkSize: int): (v: ChunkView)
    ensures v.state == Unloaded && !v.isDirty && v.tilesCreated && !v.tempsCreated && !v.hasChunkObject
    ensures |v.tiles| == chunkSize * chunkSize && forall i :: 0 <= i < |v.tiles| ==> v.tiles[i] == ZeroTile
  {
    SquareNonnegative(chunkSize);
    ChunkView(Unloaded, false, seq(chunkSize * chunkSize, _ => ZeroTile), true, false, false)
  }

  // --- the UV table ---

  /** PreComputeUVOffsets: slot i of a d x d atlas sits at column i % d and
    row i / d, each `tileOffset` wide. */
  function UvOffsetTable(d: int, tileOffset: real): (t: seq<Vec2>)
    requires d > 0
    ensures |t| == d * d
  {
    SquareNonnegative(d);
    seq(d * d, i requires 0 <= i < d * d => Vec2((i % d) as real * tileOffset, (i / d) as real * tileOffset))
  }

  /** The slot of column x and row y holds that cell's corner. */
  lemma UvOffsetTableAt(d: int, tileOffset: real, x: int, y: int)
    requires d > 0 && 0 <= x < d && 0 <= y < d
    ensures 0 <= RowMajor(x, y, d) < d * d
    ensures UvOffsetTable(d, tileOffset)[RowMajor(x, y, d)] == Vec2(x as real * tileOffset, y as real * tileOffset)
  {
    RowMajorInRange(x, y, d);
  }

  /** With tileOffset = 1/d every slot's square lies inside the unit square
    of the texture. */
  lemma {:induction false} UvOffsetsInUnitSquare(d: int, i: int)
    requires d > 0 && 0 <= i < d * d
    ensures var o := UvOffsetTable(d, 1.0 / d as real)[i];
      0.0 <= o.x && o.x + 1.0 / d as real <= 1.0 && 0.0 <= o.y && o.y + 1.0 / d as real <= 1.0
  {
    var off := 1.0 / d as real;
    IndexToTile(i, d);
    var x, y := i % d, i / d;
    CellFits(x, d);
    CellFits(y, d);
  }

  lemma CellFits(x: int, d: int)
    requires 0 <= x < d
    ensures 0.0 <= x as real * (1.0 / d as real) && x as real * (1.0 / d as real) + 1.0 / d as real <= 1.0
  {
    var off := 1.0 / d as real;
    assert off * d as real == 1.0;
    assert x as real * off + off == (x + 1) as real * off;
    assert (x + 1) as real * off <= d as real * off;
  }

  // --- the entity bookkeeping is kept by every step ---

  lemma CopiedToBufferWellFormed(w: World, k: Int2)
    requires WellFormed(w)
    ensures WellFormed(CopiedToBuffer(w, k))
  {}

  lemma ChunkLoadedWellFormed(w: World, k: Int2)
    requires WellFormed(w)
    ensures WellFormed(ChunkLoaded(w, k))
  {
    if k in w.chunks && w.chunks[k].state == Loaded {
      NewEntityWellFormed(w.entityOf, w.records, w.buffers, w.nextEntity, k, ChunkData(k, |w.chunks[k].tiles|));
    }
  }

  lemma {:induction false} FinalizedAllWellFormed(w: World, keys: seq<Int2>)
    requires WellFormed(w)
    ensures WellFormed(FinalizedAll(w, keys))
    decreases |keys|
  {
    if |keys| > 0 {
      var prev := FinalizedAll(w, keys[..|keys| - 1]);
      FinalizedAllWellFormed(w, keys[..|keys| - 1]);
      var k := keys[|keys| - 1];
      if k in prev.chunks && prev.chunks[k].state == WaitingToLoad {
        ChunkLoadedWellFormed(prev.(chunks := prev.chunks[k := prev.chunks[k].(tempsCreated := false, hasChunkObject := true,
                                                                                state := Loaded)]), k);
      }
    }
  }

  /** Destroying a chunk's entity leaves the other chunks' entities alone. */
  lemma ChunkUnloadedWellFormed(w: World, k: Int2)
    requires WellFormed(w)
    ensures WellFormed(ChunkUnloaded(w, k))
  {
    if k in w.entityOf {
      assert forall j :: j in w.entityOf && j != k ==> w.entityOf[j] != w.entityOf[k];
    }
  }

  lemma UnloadedAllWellFormed(w: World, s: set<Int2>)
    requires WellFormed(w)
    ensures WellFormed(UnloadedAll(w, s))
  {
  }

  // --- lookups ---

  /** GetLoadedChunk: the chunk at `chunkCoord` if it is active and Loaded. */
  function GetLoadedChunk(chunks: map<Int2, ChunkView>, chunkCoord: Int2): (r: Option<ChunkView>)
    ensures r.Some? <==> chunkCoord in chunks && chunks[chunkCoord].state == Loaded
    ensures r.Some? ==> r.value == chunks[chunkCoord]
  {
    if chunkCoord in chunks && chunks[chunkCoord].state == Loaded then Some(chunks[chunkCoord]) else None
  }

  /** Under the publication invariant a chunk GetLoadedChunk returns has an
    entity whose ChunkData names it and its tile count. */
  lemma LoadedChunkIsPublished(w: World, chunkCoord: Int2)
    requires Published(w)
    ensures GetLoadedChunk(w.chunks, chunkCoord).Some? <==> chunkCoord in w.entityOf
    ensures chunkCoord in w.entityOf ==>
      w.records[w.entityOf[chunkCoord]] == ChunkData(chunkCoord, |GetLoadedChunk(w.chunks, chunkCoord).value.tiles|)
  {}

  /** The global tile under a world position: (int)floor of x and z. */
  function GlobalTile(worldPosition: Vec3): Int2
  {
    Int2(worldPosition.x.Floor, worldPosition.z.Floor)
  }

  /** GetTileDataFromWorldPosition as written: the chunk coordinate is the
    global tile divided by chunkSize with C#'s `/`, which truncates toward
    zero; the local coordinate is the remainder, checked against the chunk's
    bounds, and the row-major index against the tile array's length. */
  function GetTileDataFromWorldPosition(chunks: map<Int2, ChunkView>, chunkSize: int, worldPosition: Vec3)
    : (r: Option<Tile>)
    requires chunkSize > 0
    ensures r.Some? ==> var c := TruncatedChunk(GlobalTile(worldPosition), chunkSize);
      c in chunks && r.value in chunks[c].tiles
  {
    var g := GlobalTile(worldPosition);
    var c := TruncatedChunk(g, chunkSize);
    if c !in chunks then None
    else
      var l := Int2(g.x - c.x * chunkSize, g.y - c.y * chunkSize);
      if l.x < 0 || l.x >= chunkSize || l.y < 0 || l.y >= chunkSize then None
      else
        var index := l.x + l.y * chunkSize;
        MulNonnegative(l.y, chunkSize);
        if |chunks[c].tiles| > index then Some(chunks[c].tiles[index]) else None
  }

  /** The evidently intended lookup: the tile's owning chunk by floor
    division (ChunkOf) and its local row-major index. */
  function TileAtWorldPosition(chunks: map<Int2, ChunkView>, chunkSize: int, worldPosition: Vec3): (r: Option<Tile>)
    requires chunkSize > 0
  {
    var g := GlobalTile(worldPosition);
    var c := ChunkOf(g, chunkSize);
    if c in chunks && LocalIndex(g, chunkSize) < |chunks[c].tiles| then Some(chunks[c].tiles[LocalIndex(g, chunkSize)])
    else None
  }

  /** The corrected lookup finds every tile of every active chunk that owns
    its n^2 tiles: the tile at local column x and row y of chunk c is the
    one stored at index x + y * n. */
  lemma TileAtWorldPositionFinds(chunks: map<Int2, ChunkView>, chunkSize: int, worldPosition: Vec3)
    requires chunkSize > 0
    ensures var g := GlobalTile(worldPosition);
      var c := ChunkOf(g, chunkSize);
      var l := LocalOf(g, chunkSize);
      c in chunks && |chunks[c].tiles| == chunkSize * chunkSize ==>
        TileAtWorldPosition(chunks, chunkSize, worldPosition) == Some(chunks[c].tiles[LocalIndex(g, chunkSize)]) &&
        LocalIndex(g, chunkSize) == l.x + l.y * chunkSize && 0 <= l.x < chunkSize && 0 <= l.y < chunkSize &&
        g == Int2(c.x * chunkSize + l.x, c.y * chunkSize + l.y)
    ensures ChunkOf(GlobalTile(worldPosition), chunkSize) !in chunks ==>
      TileAtWorldPosition(chunks, chunkSize, worldPosition) == None
  {
    var g := GlobalTile(worldPosition);
    var l := LocalOf(g, chunkSize);
    assert LocalIndex(g, chunkSize) == RowMajor(l.x, l.y, chunkSize);
  }

  /** Where each coordinate of the global tile is non-negative or a multiple
    of chunkSize, truncation and floor agree and so do the two lookups. */
  lemma {:induction false} AsWrittenAgreesAwayFromNegatives(chunks: map<Int2, ChunkView>, chunkSize: int,
                                                            worldPosition: Vec3)
    requires chunkSize > 0
    requires var g := GlobalTile(worldPosition);
      (g.x >= 0 || g.x % chunkSize == 0) && (g.y >= 0 || g.y % chunkSize == 0)
    ensures GetTileDataFromWorldPosition(chunks, chunkSize, worldPosition) ==
      TileAtWorldPosition(chunks, chunkSize, worldPosition)
  {
    var g := GlobalTile(worldPosition);
    TruncDivVersusFloorDiv(g.x, chunkSize);
    TruncDivVersusFloorDiv(g.y, chunkSize);
    var l := LocalOf(g, chunkSize);
    assert LocalIndex(g, chunkSize) == l.x + l.y * chunkSize;
  }

  /** As written, a tile whose x or z is negative and not a multiple of
    chunkSize is never found, whatever is loaded: the truncated quotient
    names the chunk one nearer zero, and the local coordinate it leaves is
    negative. */
  lemma {:induction false} AsWrittenMissesNegativeTiles(chunks: map<Int2, ChunkView>, chunkSize: int,
                                                        worldPosition: Vec3)
    requires chunkSize > 0
    requires var g := GlobalTile(worldPosition);
      (g.x < 0 && g.x % chunkSize != 0) || (g.y < 0 && g.y % chunkSize != 0)
    ensures GetTileDataFromWorldPosition(chunks, chunkSize, worldPosition) == None
  {
    var g := GlobalTile(worldPosition);
    TruncDivVersusFloorDiv(g.x, chunkSize);
    TruncDivVersusFloorDiv(g.y, chunkSize);
    if g.x < 0 && g.x % chunkSize != 0 {
      NegativeRemainder(g.x, chunkSize);
    } else {
      NegativeRemainder(g.y, chunkSize);
    }
  }

  lemma NegativeRemainder(a: int, n: int)
    requires n > 0 && a < 0 && a % n != 0
    ensures a - (FloorDiv(a, n) + 1) * n < 0
  {
    MulDistributes(FloorDiv(a, n), n);
  }

  /** A concrete case: 16-tile chunks, chunk (-1, 0) loaded with its 256
    tiles, and the position (-0.5, 0, 0.5) over global tile (-1, 0), which is
    local tile (15, 0) of that chunk. The lookup as written returns nothing;
    the corrected one returns tile 15. */
  lemma NegativeTileCounterexample(v: ChunkView)
    requires |v.tiles| == 256
    ensures GetTileDataFromWorldPosition(map[Int2(-1, 0) := v], 16, Vec3(-0.5, 0.0, 0.5)) == None
    ensures TileAtWorldPosition(map[Int2(-1, 0) := v], 16, Vec3(-0.5, 0.0, 0.5)) == Some(v.tiles[15])
  {
    var pos := Vec3(-0.5, 0.0, 0.5);
    assert GlobalTile(pos) == Int2(-1, 0);
    AsWrittenMissesNegativeTiles(map[Int2(-1, 0) := v], 16, pos);
    assert LocalOf(Int2(-1, 0), 16) == Int2(15, 0);
  }

  /** OnChunkLoaded on a Loaded chunk, spelled out field by field. */
  lemma ChunkLoadedShape(w: World, k: Int2)
    requires k in w.chunks && w.chunks[k].state == Loaded
    ensures var e := Entity(w.nextEntity);
      ChunkLoaded(w, k) ==
        w.(chunks := w.chunks[k := w.chunks[k].(isDirty := false)],
           records := w.records[e := ChunkData(k, |w.chunks[k].tiles|)],
           buffers := w.buffers[e := TileElements(w.chunks[k].tiles)],
           entityOf := w.entityOf[k := e], nextEntity := w.nextEntity + 1)
  {}

  /** Mapping `k` to a newly created entity, with its component and an
    empty buffer, keeps the entity bookkeeping well formed. */
  lemma NewEntityWellFormed(entityOf: map<Int2, Entity>, records: map<Entity, ChunkData>,
                            buffers: map<Entity, seq<TileBufferElement>>, nextEntity: nat, k: Int2, data: ChunkData)
    requires EntitiesWellFormed(entityOf, records, buffers, nextEntity) && data.chunkCoord == k
    ensures EntitiesWellFormed(entityOf[k := Entity(nextEntity)], records[Entity(nextEntity) := data],
                               buffers[Entity(nextEntity) := []], nextEntity + 1)
  {
    assert forall j :: j in entityOf ==> entityOf[j] != Entity(nextEntity);
  }

  /** DynamicBuffer.ResizeUninitialized: the first `length` elements are
    kept; new slots hold unspecified data, here the zero element. */
  function ResizedUninitialized(buffer: seq<TileBufferElement>, length: nat): (r: seq<TileBufferElement>)
    ensures |r| == length
    ensures forall i :: 0 <= i < length && i < |buffer| ==> r[i] == buffer[i]
  {
    if length <= |buffer| then buffer[..length]
    else buffer + seq(length - |buffer|, _ => TileBufferElement(ZeroTile))
  }

  /** With nothing WaitingToLoad, the finalisation loop changes nothing. */
  lemma {:induction false} FinalizedAllIdle(w: World, keys: seq<Int2>)
    requires forall k :: k in w.chunks ==> w.chunks[k].state != WaitingToLoad
    ensures FinalizedAll(w, keys) == w
    decreases |keys|
  {
    if |keys| > 0 {
      FinalizedAllIdle(w, keys[..|keys| - 1]);
    }
  }
}
