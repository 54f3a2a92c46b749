/** The indexing job (src/services/indexArticles.ts): embed the fetched
    articles' contents, check that one vector came back per article, make
    sure the collection exists, and upsert the article/vector pairs. The
    fetched articles and the embedding call are parameters. */
module Indexing {
  import opened Base
  import opened Ingestion
  import opened Qdrant

  /** The remote calls the job makes, in the order it makes them. */
  datatype Call = EmbedCall(texts: seq<string>) | CreateCollectionCall | UpsertCall(batch: seq<Embedded>)

  /** How `run` ends; it never throws. */
  datatype RunResult = NothingToIndex | Indexed | Failed

  /** The texts sent for embedding: each article's content, in article order. */
  function Contents(articles: seq<Article>): (texts: seq<string>)
    ensures |texts| == |articles| && forall i :: 0 <= i < |articles| ==> texts[i] == articles[i].content
  {
    seq(|articles|, i requires 0 <= i < |articles| => articles[i].content)
  }

  /** Article i with embedding i. */
  function Pair(articles: seq<Article>, embeddings: seq<Vector>): (batch: seq<Embedded>)
    requires |embeddings| == |articles|
    ensures |batch| == |articles|
    ensures forall i :: 0 <= i < |batch| ==> batch[i].article == articles[i] && batch[i].embedding == embeddings[i]
  {
    seq(|articles|, i requires 0 <= i < |articles| => Embedded(articles[i], embeddings[i]))
  }

  /** run: return early on no articles; fail (caught) when the embedding call
      throws or returns a different number of vectors; otherwise create the
      collection if needed and then upsert. Every error is caught. The
      collection is the one QDRANT_COLLECTION names, `collectionEnv` being
      that variable. */
  method Run(server: Server, collectionEnv: Option<string>, articles: seq<Article>,
             embed: seq<string> -> Outcome<seq<Vector>>,
             lookupFails: bool, createFails: bool, upsertFails: bool)
    returns (result: RunResult, calls: seq<Call>)
    modifies server
    ensures |articles| == 0 ==> result == NothingToIndex && calls == [] && server.collections == old(server.collections)
    ensures |articles| > 0 ==> result != NothingToIndex && |calls| > 0 && calls[0] == EmbedCall(Contents(articles))
    ensures var e := embed(Contents(articles));
      |articles| > 0 && (e.Threw? || |e.value| != |articles|) ==>
        result == Failed && calls == [EmbedCall(Contents(articles))] && server.collections == old(server.collections)
    ensures var e := embed(Contents(articles));
      |articles| > 0 && e.Ok? && |e.value| == |articles| ==>
        var name := CollectionName(collectionEnv);
        var (created, ok) := EnsureCollection(old(server.collections), name, lookupFails, createFails);
        if !ok then
          result == Failed && calls == [EmbedCall(Contents(articles)), CreateCollectionCall] && server.collections == created
        else
          var batch := Pair(articles, e.value);
          calls == [EmbedCall(Contents(articles)), CreateCollectionCall, UpsertCall(batch)] &&
          (result == Indexed <==> !upsertFails && name in created && !WrongDimension(created[name], ToPoints(batch))) &&
          server.collections == if result == Indexed
            then created[name := created[name].(points := PutAll(created[name].points, ToPoints(batch)))]
            else created
  {
    calls := [];
    if |articles| == 0 {
      return NothingToIndex, calls;
    }
    var texts := Contents(articles);
    var embedded := embed(texts);
    calls := calls + [EmbedCall(texts)];
    if embedded.Threw? || |embedded.value| != |articles| {
      return Failed, calls;
    }
    var name := CollectionName(collectionEnv);
    var ok := CreateCollection(server, name, lookupFails, createFails);
    calls := calls + [CreateCollectionCall];
    if !ok {
      return Failed, calls;
    }
    var batch := Pair(articles, embedded.value);
    ok := UpsertArticles(server, name, batch, upsertFails);
    calls := calls + [UpsertCall(batch)];
    result := if ok then Indexed else Failed;
  }
}
