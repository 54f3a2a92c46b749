/** The vector-index adapter (src/services/qdrantService.ts): the mapping
    from articles to points, and collection creation and upsert over the
    collections a Qdrant server holds. Similarity search itself is the
    server's business and stays a parameter. */
module Qdrant {
  import opened Base
  import opened Ingestion

  /** An embedding; its numbers are never computed on here. */
  type Vector = seq<real>

  const DEFAULT_COLLECTION := "news_articles"

  /** `process.env.QDRANT_COLLECTION || "news_articles"`. */
  function CollectionName(env: Option<string>): (name: string)
    ensures name != ""
    ensures !Falsy(env) ==> name == env.value
    ensures Falsy(env) ==> name == DEFAULT_COLLECTION
  {
    OrElse(env, DEFAULT_COLLECTION)
  }

  datatype Distance = Cosine | Dot | Euclid | Manhattan

  datatype CollectionConfig = CollectionConfig(size: nat, distance: Distance,
                                               defaultSegmentNumber: nat, replicationFactor: nat)

  /** The parameters createCollection asks for: 1024-dimensional vectors
      under the cosine metric, one segment, one replica. */
  const NEWS_CONFIG := CollectionConfig(1024, Cosine, 1, 1)

  datatype Payload = Payload(title: string, url: string, publishedAt: string, content: string)

  datatype Point = Point(id: string, vector: Vector, payload: Payload)

  /** A search hit as returned to the caller (its similarity score is not modelled). */
  datatype ScoredPoint = ScoredPoint(id: string, payload: Option<Payload>)

  datatype Collection = Collection(config: CollectionConfig, points: map<string, Point>)

  /** One element of upsertArticles' argument. */
  datatype Embedded = Embedded(article: Article, embedding: Vector)

  function ToPoint(e: Embedded): Point
  {
    Point(e.article.id, e.embedding, Payload(e.article.title, e.article.url, e.article.publishedAt, e.article.content))
  }

  /** The article a stored point describes. */
  function ArticleOf(p: Point): Article
  {
    Article(p.id, p.payload.title, p.payload.url, p.payload.publishedAt, p.payload.content)
  }

  /** A point keeps everything of its article and its embedding. */
  lemma PointRoundTrip(e: Embedded)
    ensures ArticleOf(ToPoint(e)) == e.article && ToPoint(e).vector == e.embedding
  {
  }

  /** upsertArticles' points: one per input, in input order. */
  function ToPoints(batch: seq<Embedded>): (points: seq<Point>)
    ensures |points| == |batch|
    ensures forall i :: 0 <= i < |batch| ==>
      points[i].id == batch[i].article.id && points[i].vector == batch[i].embedding &&
      ArticleOf(points[i]) == batch[i].article
  {
    seq(|batch|, i requires 0 <= i < |batch| => ToPoint(batch[i]))
  }

  /** The ids of a batch of points. */
  function Ids(points: seq<Point>): set<string>
  {
    set p | p in points :: p.id
  }

  /** Upsert applies the points in order; a later point replaces an earlier
      one with the same id. */
  function PutAll(m: map<string, Point>, points: seq<Point>): (r: map<string, Point>)
    ensures r.Keys == m.Keys + Ids(points)
    decreases |points|
  {
    if |points| == 0 then m
    else
      assert Ids(points) == {points[0].id} + Ids(points[1..]) by {
        assert points == [points[0]] + points[1..];
      }
      PutAll(m[points[0].id := points[0]], points[1..])
  }

  /** Ids that occur once in a batch. */
  predicate DistinctIds(points: seq<Point>)
  {
    forall i, j :: 0 <= i < j < |points| ==> points[i].id != points[j].id
  }

  /** With distinct ids every point of the batch is stored as given, and
      points with other ids are untouched. */
  lemma {:induction false} PutAllStores(m: map<string, Point>, points: seq<Point>)
    requires DistinctIds(points)
    ensures forall i :: 0 <= i < |points| ==> PutAll(m, points)[points[i].id] == points[i]
    ensures forall k :: k in m && (forall i :: 0 <= i < |points| ==> points[i].id != k) ==> PutAll(m, points)[k] == m[k]
    decreases |points|
  {
    if |points| > 0 {
      var m1 := m[points[0].id := points[0]];
      PutAllStores(m1, points[1..]);
      forall i | 0 <= i < |points|
        ensures PutAll(m, points)[points[i].id] == points[i]
      {
        if i == 0 {
          assert forall j :: 0 <= j < |points[1..]| ==> points[1..][j].id != points[0].id by {
            forall j | 0 <= j < |points[1..]| ensures points[1..][j].id != points[0].id {
              assert points[1..][j] == points[j + 1];
            }
          }
        } else {
          assert points[1..][i - 1] == points[i];
        }
      }
      forall k | k in m && (forall i :: 0 <= i < |points| ==> points[i].id != k)
        ensures PutAll(m, points)[k] == m[k]
      {
        assert points[0].id != k;
        assert forall j :: 0 <= j < |points[1..]| ==> points[1..][j].id != k by {
          forall j | 0 <= j < |points[1..]| ensures points[1..][j].id != k {
            assert points[1..][j] == points[j + 1];
          }
        }
      }
    }
  }

  /** A vector whose length differs from the collection's size. */
  predicate WrongDimension(c: Collection, points: seq<Point>)
  {
    exists i :: 0 <= i < |points| && |points[i].vector| != c.config.size
  }

  /** The Qdrant server: its collections by name. A call whose `fails` flag
      is set is one the server refused or never received: it throws and
      changes nothing. A call that the server applies but whose reply is
      lost, for example to the client's timeout, is not modelled. */
  class Server {
    var collections: map<string, Collection>

    constructor ()
      ensures collections == map[]
    {
      collections := map[];
    }

    /** getCollection: the collection's configuration, or an exception when
        it does not exist or the call fails. */
    method GetCollection(name: string, fails: bool) returns (r: Outcome<CollectionConfig>)
      ensures r.Ok? <==> !fails && name in collections
      ensures r.Ok? ==> r.value == collections[name].config
    {
      if fails || name !in collections { return Threw; }
      return Ok(collections[name].config);
    }

    /** createCollection: refused when the name is taken. */
    method CreateCollection(name: string, config: CollectionConfig, fails: bool) returns (ok: bool)
      modifies this
      ensures ok <==> !fails && name !in old(collections)
      ensures collections == if ok then old(collections)[name := Collection(config, map[])] else old(collections)
    {
      if fails || name in collections { return false; }
      collections := collections[name := Collection(config, map[])];
      return true;
    }

    /** upsert: refused for an unknown collection or a vector of the wrong
        size, in which case nothing of the batch is stored. */
    method Upsert(name: string, points: seq<Point>, fails: bool) returns (ok: bool)
      modifies this
      ensures ok <==> !fails && name in old(collections) && !WrongDimension(old(collections)[name], points)
      ensures collections == if ok then
          old(collections)[name := old(collections)[name].(points := PutAll(old(collections)[name].points, points))]
        else old(collections)
    {
      if fails || name !in collections || WrongDimension(collections[name], points) { return false; }
      var c := collections[name];
      collections := collections[name := c.(points := PutAll(c.points, points))];
      return true;
    }
  }

  /** createCollection's effect: nothing if the lookup found the collection;
      otherwise a creation, which fails when a lookup error hid an existing
      collection. */
  function EnsureCollection(colls: map<string, Collection>, name: string, lookupFails: bool, createFails: bool)
    : (map<string, Collection>, bool)
  {
    if !lookupFails && name in colls then (colls, true)
    else if createFails || name in colls then (colls, false)
    else (colls[name := Collection(NEWS_CONFIG, map[])], true)
  }

  /** Once createCollection has succeeded the collection exists, and a second
      call whose lookup succeeds returns without creating anything. A lookup
      error counts as "absent": creation follows, with the news configuration. */
  lemma EnsureCollectionIdempotent(colls: map<string, Collection>, name: string, lookupFails: bool, createFails: bool, again: bool)
    ensures var (once, ok) := EnsureCollection(colls, name, lookupFails, createFails);
      (ok ==> name in once) &&
      (ok ==> EnsureCollection(once, name, false, again) == (once, true)) &&
      (name !in colls && !createFails ==> ok && once[name] == Collection(NEWS_CONFIG, map[])) &&
      (!ok ==> once == colls)
  {
  }

  /** createCollection: check, then create if needed; errors are rethrown. */
  method CreateCollection(server: Server, name: string, lookupFails: bool, createFails: bool) returns (ok: bool)
    modifies server
    ensures (server.collections, ok) == EnsureCollection(old(server.collections), name, lookupFails, createFails)
  {
    var found := server.GetCollection(name, lookupFails);
    if found.Ok? {
      return true;
    }
    ok := server.CreateCollection(name, NEWS_CONFIG, createFails);

  }

  /** upsertArticles: map the batch to points and upsert them; errors are rethrown. */
  method UpsertArticles(server: Server, name: string, batch: seq<Embedded>, fails: bool) returns (ok: bool)
    modifies server
    ensures ok <==> !fails && name in old(server.collections) && !WrongDimension(old(server.collections)[name], ToPoints(batch))
    ensures ok ==> server.collections == old(server.collections)[name :=
      old(server.collections)[name].(points := PutAll(old(server.collections)[name].points, ToPoints(batch)))]
    ensures !ok ==> server.collections == old(server.collections)
  {
    ok := server.Upsert(name, ToPoints(batch), fails);
  }

  /** After a successful upsert of a batch with distinct ids, each article can
      be read back from the point stored under its id, beside its embedding. */
  lemma UpsertReadBack(points: map<string, Point>, batch: seq<Embedded>, i: int)
    requires 0 <= i < |batch|
    requires forall j, k :: 0 <= j < k < |batch| ==> batch[j].article.id != batch[k].article.id
    ensures var stored := PutAll(points, ToPoints(batch));
      batch[i].article.id in stored &&
      ArticleOf(stored[batch[i].article.id]) == batch[i].article &&
      stored[batch[i].article.id].vector == batch[i].embedding
  {
    var ps := ToPoints(batch);
    PutAllStores(points, ps);
    assert ps[i].id == batch[i].article.id;
  }

  /** The request searchArticles sends: the query vector (absent when the
      embedding call returned none) and the result limit. */
  datatype SearchRequest = SearchRequest(vector: Option<Vector>, limit: int)

  /** searchArticles: forward the vector with `limit: topK`; the reply or the
      error comes back unchanged. */
  function SearchArticles(search: SearchRequest -> Outcome<seq<ScoredPoint>>, queryVector: Option<Vector>, topK: int)
    : (r: Outcome<seq<ScoredPoint>>)
    ensures r == search(SearchRequest(queryVector, topK))
  {
    search(SearchRequest(queryVector, topK))
  }
}
