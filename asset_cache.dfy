/**
 * The type-keyed asset cache: one map from (asset kind, hash of the asset's
 * source) to a stored value, shared by every kind of asset.
 */
module AssetCaching {
  import opened Base
  import opened Platform

  /** Where an image comes from: a remote URI or a local file path. */
  datatype UriOrPath = Uri(uri: string) | Path(path: string)

  /** `From<SharedUri> for UriOrPath`. */
  function FromUri(uri: string): (s: UriOrPath)
    ensures s.Uri? && s.uri == uri
  {
    Uri(uri)
  }

  /** `From<Arc<PathBuf>> for UriOrPath`. */
  function FromPath(path: string): (s: UriOrPath)
    ensures s.Path? && s.path == path
  {
    Path(path)
  }

  /** What the derived `Hash` impl of `UriOrPath` writes: the variant, then its payload. */
  function UriOrPathFeed(s: UriOrPath): seq<HashToken>
  {
    match s
    case Uri(u) => [Word(0), Text(u)]
    case Path(p) => [Word(1), Text(p)]
  }

  /** Distinct sources write distinct tokens: two `UriOrPath` keys meet only through a hash collision. */
  lemma UriOrPathFeedInjective(a: UriOrPath, b: UriOrPath)
    ensures UriOrPathFeed(a) == UriOrPathFeed(b) <==> a == b
  {
    if UriOrPathFeed(a) == UriOrPathFeed(b) {
      assert UriOrPathFeed(a)[0] == UriOrPathFeed(b)[0];
      assert UriOrPathFeed(a)[1] == UriOrPathFeed(b)[1];
    }
  }

  /** `TypeId::of::<A>()`: the identity of an asset kind. */
  datatype TypeId = TypeId(name: string)

  /** The map key: the asset kind and the 64-bit hash of the source. */
  type CacheKey = (TypeId, u64)

  /** The key `get::<A>` and `insert::<A>` compute for a source whose `Hash` impl writes `feed`. */
  function KeyOf(kind: TypeId, feed: seq<HashToken>, hasher: Hasher): CacheKey
  {
    (kind, hasher(feed))
  }

  /** The map lookup behind `get`. */
  function Lookup<V>(assets: map<CacheKey, V>, key: CacheKey): Option<V>
  {
    if key in assets then Some(assets[key]) else None
  }

  class AssetCache<V> {
    const client: HttpClient
    /** The `DefaultHasher` both methods hash the source with. */
    const hasher: Hasher
    var assets: map<CacheKey, V>

    /** `AssetCache::new`: remembers the client and starts with no entries. */
    constructor (client: HttpClient, hasher: Hasher)
      ensures this.client == client && this.hasher == hasher
      ensures assets == map[]
    {
      this.client := client;
      this.hasher := hasher;
      assets := map[];
    }

    /** `get::<A>(source)`: the entry for (A, hash(source)) if there is one; the map is not changed. */
    method Get(kind: TypeId, feed: seq<HashToken>) returns (r: Option<V>)
      ensures r.Some? <==> KeyOf(kind, feed, hasher) in assets
      ensures r.Some? ==> r.value == assets[KeyOf(kind, feed, hasher)]
      ensures r == Lookup(assets, KeyOf(kind, feed, hasher))
    {
      var key := (kind, hasher(feed));
      if key in assets {
        r := Some(assets[key]);
      } else {
        r := None;
      }
    }

    /** `insert::<A>(source, task)`: stores `task` under (A, hash(source)), replacing what was there. */
    method Insert(kind: TypeId, feed: seq<HashToken>, task: V)
      modifies this`assets
      ensures assets == old(assets)[KeyOf(kind, feed, hasher) := task]
    {
      assets := assets[(kind, hasher(feed)) := task];
    }

    /** `client()`: the client given to `new`. */
    method Client() returns (c: HttpClient)
      ensures c == client
    {
      c := client;
    }
  }

  /** A new cache answers every lookup with nothing. */
  lemma LookupEmpty<V>(key: CacheKey)
    ensures Lookup<V>(map[], key) == None
  {
  }

  /** After inserting `task` for a source, a lookup for any source with the same hash answers `task`. */
  lemma LookupAfterInsert<V>(assets: map<CacheKey, V>, hasher: Hasher, kind: TypeId,
                             feed: seq<HashToken>, other: seq<HashToken>, task: V)
    requires hasher(other) == hasher(feed)
    ensures Lookup(assets[KeyOf(kind, feed, hasher) := task], KeyOf(kind, other, hasher)) == Some(task)
  {
  }

  /** A second insert under the same key replaces the first and adds no entry. */
  lemma LastWriterWins<V>(assets: map<CacheKey, V>, key: CacheKey, first: V, second: V)
    ensures assets[key := first][key := second] == assets[key := second]
    ensures |assets[key := first][key := second]| == |assets[key := first]|
  {
    assert assets[key := first][key := second].Keys == assets[key := first].Keys;
  }

  /**
   * Kind isolation: an insert for one kind does not change any lookup for another
   * kind, even when the two sources hash to the same value.
   */
  lemma KindIsolation<V>(assets: map<CacheKey, V>, hasher: Hasher, kind: TypeId, feed: seq<HashToken>,
                         task: V, otherKind: TypeId, otherFeed: seq<HashToken>)
    requires otherKind != kind
    ensures Lookup(assets[KeyOf(kind, feed, hasher) := task], KeyOf(otherKind, otherFeed, hasher))
         == Lookup(assets, KeyOf(otherKind, otherFeed, hasher))
  {
  }

  /** An insert changes the entry for its own key and no other. */
  lemma InsertFrame<V>(assets: map<CacheKey, V>, key: CacheKey, task: V, other: CacheKey)
    requires other != key
    ensures Lookup(assets[key := task], other) == Lookup(assets, other)
    ensures assets[key := task].Keys == assets.Keys + {key}
  {
  }
}
