/** Feed configuration and the conversion of parsed feed items into article
    records (src/services/ragIngestionService.ts). Fetching and XML parsing are
    a parameter: the response each feed URL produced. */
module Ingestion {
  import opened Base
  import opened Strings

  datatype Article = Article(id: string, title: string, url: string, publishedAt: string, content: string)

  /** Every part trimmed, in order. */
  function TrimAll(parts: seq<string>): (r: seq<string>)
    ensures |r| == |parts| && forall i :: 0 <= i < |r| ==> r[i] == Trim(parts[i])
  {
    seq(|parts|, i requires 0 <= i < |parts| => Trim(parts[i]))
  }

  /** Trimming the parts again changes nothing. */
  lemma TrimAllIdempotent(parts: seq<string>)
    ensures TrimAll(TrimAll(parts)) == TrimAll(parts)
  {
    var r := TrimAll(parts);
    forall i | 0 <= i < |r| ensures Trim(r[i]) == r[i] {
      TrimIdempotent(parts[i]);
    }
  }

  /** `filter(Boolean)` on strings: the non-empty ones, in order. */
  function NonEmpty(parts: seq<string>): (r: seq<string>)
    ensures forall i :: 0 <= i < |r| ==> r[i] != "" && r[i] in parts
    ensures forall p :: p in parts && p != "" ==> p in r
    decreases |parts|
  {
    if |parts| == 0 then []
    else if parts[0] == "" then NonEmpty(parts[1..])
    else [parts[0]] + NonEmpty(parts[1..])
  }

  /** FEEDS: `(RSS_FEEDS || "").split(",").map(trim).filter(Boolean)`. */
  function Feeds(env: Option<string>): (feeds: seq<string>)
    ensures forall i :: 0 <= i < |feeds| ==>
      feeds[i] != "" && Trim(feeds[i]) == feeds[i] && ',' !in feeds[i]
  {
    var parts := Split(OrElse(env, ""), ',');
    var trimmed := TrimAll(parts);
    forall i | 0 <= i < |trimmed| ensures ',' !in trimmed[i] && Trim(trimmed[i]) == trimmed[i] {
      TrimKeepsOut(parts[i], ',');
      TrimIdempotent(parts[i]);
    }
    NonEmpty(trimmed)
  }

  /** An unset or empty variable configures no feed. */
  lemma NoFeedsConfigured()
    ensures Feeds(None) == [] && Feeds(Some("")) == []
  {
    assert OrElse(None, "") == "" && OrElse(Some(""), "") == "";
    assert Split("", ',') == [""];
    TrimNoEdgeSpace("");
    assert TrimAll([""]) == [""];
    assert NonEmpty([""]) == [];
  }

  lemma {:induction false} NonEmptyKeepsAll(parts: seq<string>)
    requires forall i :: 0 <= i < |parts| ==> parts[i] != ""
    ensures NonEmpty(parts) == parts
    decreases |parts|
  {
    if |parts| > 0 {
      NonEmptyKeepsAll(parts[1..]);
      assert [parts[0]] + parts[1..] == parts;
    }
  }

  /** `filter` keeps order and multiplicity: filtering a concatenation is
      concatenating the filtered halves. */
  lemma {:induction false} NonEmptyAppend(a: seq<string>, b: seq<string>)
    ensures NonEmpty(a + b) == NonEmpty(a) + NonEmpty(b)
    decreases |a|
  {
    if |a| == 0 {
      assert a + b == b;
    } else {
      assert (a + b)[0] == a[0];
      assert (a + b)[1..] == a[1..] + b;
      NonEmptyAppend(a[1..], b);
    }
  }

  /** A list of one part keeps it exactly when it is not empty. */
  lemma NonEmptySingle(p: string)
    ensures NonEmpty([p]) == if p == "" then [] else [p]
  {
    assert [p][1..] == [];
  }

  lemma TrimAllAppend(a: seq<string>, b: seq<string>)
    ensures TrimAll(a + b) == TrimAll(a) + TrimAll(b)
  {
  }

  /** Any comma-separated value configures its pieces, each trimmed, the
      empty ones dropped, in the order written. */
  lemma FeedsOfJoin(parts: seq<string>)
    requires |parts| > 0
    requires forall i :: 0 <= i < |parts| ==> ',' !in parts[i]
    ensures Feeds(Some(Join(parts, ","))) == NonEmpty(TrimAll(parts))
  {
    var s := Join(parts, ",");
    assert OrElse(Some(s), "") == s;
    assert Split(s, ',') == parts by {
      assert [','] == ",";
      SplitJoin(parts, ',');
    }
  }

  lemma JoinOfThree(a: string, b: string, c: string)
    ensures Join([a, b, c], ",") == a + "," + b + "," + c
  {
    JoinSnoc([a], b, ",");
    assert [a] + [b] == [a, b];
    JoinSnoc([a, b], c, ",");
    assert [a, b] + [c] == [a, b, c];
  }

  lemma TrimAllOfThree(a: string, b: string, c: string)
    ensures TrimAll([a, b, c]) == [Trim(a), Trim(b), Trim(c)]
  {
  }

  lemma NonEmptyDropsLast(a: string, b: string)
    requires a != "" && b != ""
    ensures NonEmpty([a, b, ""]) == [a, b]
  {
    NonEmptyAppend([a, b], [""]);
    NonEmptyAppend([a], [b]);
    NonEmptySingle(a);
    NonEmptySingle(b);
    NonEmptySingle("");
    assert [a, b] + [""] == [a, b, ""];
    assert [a] + [b] == [a, b];
  }

  /** The usual spellings: blanks after the commas and a trailing comma. */
  lemma FeedsWithBlanksAndTrailingComma(u1: string, u2: string)
    requires u1 != "" && u2 != "" && Trim(u1) == u1 && Trim(u2) == u2 && ',' !in u1 && ',' !in u2
    ensures Feeds(Some(u1 + ", " + u2 + ",")) == [u1, u2]
  {
    var b := " " + u2;
    assert ',' !in b;
    JoinOfThree(u1, b, "");
    assert u1 + "," + b + "," + "" == u1 + ", " + u2 + ",";
    FeedsOfJoin([u1, b, ""]);
    TrimAllOfThree(u1, b, "");
    TrimLeadingBlank(u2);
    TrimNoEdgeSpace("");
    NonEmptyDropsLast(u1, u2);
  }

  lemma TrimAllTrimmed(parts: seq<string>)
    requires forall i :: 0 <= i < |parts| ==> Trim(parts[i]) == parts[i]
    ensures TrimAll(parts) == parts
  {
  }

  /** Listing non-empty, trimmed, comma-free URLs with commas configures
      exactly those feeds, in that order. */
  lemma FeedsRoundTrip(urls: seq<string>)
    requires forall i :: 0 <= i < |urls| ==> urls[i] != "" && Trim(urls[i]) == urls[i] && ',' !in urls[i]
    ensures Feeds(Some(Join(urls, ","))) == urls
  {
    if |urls| == 0 {
      assert Join(urls, ",") == "";
      NoFeedsConfigured();
    } else {
      FeedsRoundTripNonEmpty(urls);
    }
  }

  lemma FeedsRoundTripNonEmpty(urls: seq<string>)
    requires |urls| > 0
    requires forall i :: 0 <= i < |urls| ==> urls[i] != "" && Trim(urls[i]) == urls[i] && ',' !in urls[i]
    ensures Feeds(Some(Join(urls, ","))) == urls
  {
    var s := Join(urls, ",");
    assert OrElse(Some(s), "") == s;
    assert Split(s, ',') == urls by {
      assert [','] == ",";
      SplitJoin(urls, ',');
    }
    assert TrimAll(urls) == urls by {
      TrimAllTrimmed(urls);
    }
    NonEmptyKeepsAll(urls);
  }

  /** An item as rss-parser returns it; every field may be missing. */
  datatype Item = Item(title: Option<string>, link: Option<string>, pubDate: Option<string>,
                       contentSnippet: Option<string>, content: Option<string>)

  /** The article pushed for one item; `id` stands for `crypto.randomUUID()`
      and `nowIso` for `new Date().toISOString()`. */
  function ToArticle(item: Item, id: string, nowIso: string): (a: Article)
    ensures a.id == id
    ensures a.title == (if Falsy(item.title) then "" else item.title.value)
    ensures a.url == (if Falsy(item.link) then "" else item.link.value)
    ensures a.publishedAt == (if Falsy(item.pubDate) then nowIso else item.pubDate.value)
    ensures !Falsy(item.contentSnippet) ==> a.content == item.contentSnippet.value
    ensures Falsy(item.contentSnippet) && !Falsy(item.content) ==> a.content == item.content.value
    ensures Falsy(item.contentSnippet) && Falsy(item.content) ==> a.content == ""
  {
    Article(id, OrElse(item.title, ""), OrElse(item.link, ""), OrElse(item.pubDate, nowIso),
            OrElse(item.contentSnippet, OrElse(item.content, "")))
  }

  /** What fetching one feed produced: a non-ok HTTP status, an exception
      while fetching or parsing, or the parsed items. */
  datatype FeedResponse = NotOk(status: int) | FetchFailed | Parsed(items: seq<Item>)

  /** The articles one feed contributes, numbered from `first` for their ids. */
  function FeedArticles(r: FeedResponse, first: nat, uuid: nat -> string, nowIso: string): (arts: seq<Article>)
    ensures r.Parsed? ==> (|arts| == |r.items| &&
      forall j :: 0 <= j < |arts| ==> arts[j] == ToArticle(r.items[j], uuid(first + j), nowIso))
    ensures !r.Parsed? ==> arts == []
  {
    if r.Parsed? then seq(|r.items|, j requires 0 <= j < |r.items| => ToArticle(r.items[j], uuid(first + j), nowIso))
    else []
  }

  /** The articles of a run over the feed responses, in feed-then-item order. */
  function Collected(rs: seq<FeedResponse>, uuid: nat -> string, nowIso: string): seq<Article>
    decreases |rs|
  {
    if |rs| == 0 then []
    else
      var before := Collected(rs[..|rs| - 1], uuid, nowIso);
      before + FeedArticles(rs[|rs| - 1], |before|, uuid, nowIso)
  }

  /** The number of items in the feeds that parsed. */
  function ItemCount(rs: seq<FeedResponse>): nat
    decreases |rs|
  {
    if |rs| == 0 then 0
    else ItemCount(rs[..|rs| - 1]) + (if rs[|rs| - 1].Parsed? then |rs[|rs| - 1].items| else 0)
  }

  /** Exactly one article per parsed item; a feed that failed contributes nothing. */
  lemma {:induction false} CollectedCount(rs: seq<FeedResponse>, uuid: nat -> string, nowIso: string)
    ensures |Collected(rs, uuid, nowIso)| == ItemCount(rs)
    decreases |rs|
  {
    if |rs| > 0 {
      CollectedCount(rs[..|rs| - 1], uuid, nowIso);
    }
  }

  /** The k-th article of a run gets the k-th generated id. */
  lemma {:induction false} CollectedIds(rs: seq<FeedResponse>, uuid: nat -> string, nowIso: string)
    ensures forall k :: 0 <= k < |Collected(rs, uuid, nowIso)| ==> Collected(rs, uuid, nowIso)[k].id == uuid(k)
    decreases |rs|
  {
    if |rs| > 0 {
      var before := Collected(rs[..|rs| - 1], uuid, nowIso);
      var last := FeedArticles(rs[|rs| - 1], |before|, uuid, nowIso);
      CollectedIds(rs[..|rs| - 1], uuid, nowIso);
      var all := Collected(rs, uuid, nowIso);
      assert all == before + last;
      forall k | 0 <= k < |all| ensures all[k].id == uuid(k) {
        if k < |before| {
          assert all[k] == before[k];
        } else {
          var j := k - |before|;
          assert all[k] == last[j];
          assert last[j].id == uuid(|before| + j);
        }
      }
    }
  }

  /** Later feeds only add articles after those of earlier feeds. */
  lemma {:induction false} CollectedPrefix(rs: seq<FeedResponse>, more: seq<FeedResponse>, uuid: nat -> string, nowIso: string)
    ensures Collected(rs, uuid, nowIso) <= Collected(rs + more, uuid, nowIso)
    decreases |more|
  {
    if |more| > 0 {
      var all := rs + more;
      assert all[..|all| - 1] == rs + more[..|more| - 1];
      CollectedPrefix(rs, more[..|more| - 1], uuid, nowIso);
    } else {
      assert rs + more == rs;
    }
  }

  lemma CollectedStep(rs: seq<FeedResponse>, i: nat, uuid: nat -> string, nowIso: string)
    requires i < |rs|
    ensures Collected(rs[..i + 1], uuid, nowIso) ==
      Collected(rs[..i], uuid, nowIso) + FeedArticles(rs[i], |Collected(rs[..i], uuid, nowIso)|, uuid, nowIso)
  {
    assert rs[..i + 1][..i] == rs[..i];
  }

  /** The responses to fetching each feed in turn. */
  function Responses(feeds: seq<string>, fetch: string -> FeedResponse): (rs: seq<FeedResponse>)
    ensures |rs| == |feeds| && forall i :: 0 <= i < |rs| ==> rs[i] == fetch(feeds[i])
  {
    seq(|feeds|, i requires 0 <= i < |feeds| => fetch(feeds[i]))
  }

  /** `feed.items.forEach(item => articles.push(...))`. */
  method PushItems(articles: seq<Article>, items: seq<Item>, uuid: nat -> string, nowIso: string)
    returns (out: seq<Article>)
    ensures out == articles + FeedArticles(Parsed(items), |articles|, uuid, nowIso)
  {
    ghost var added := FeedArticles(Parsed(items), |articles|, uuid, nowIso);
    out := articles;
    var j := 0;
    while j < |items|
      invariant 0 <= j <= |items|
      invariant out == articles + added[..j]
    {
      assert added[..j + 1] == added[..j] + [added[j]];
      out := out + [ToArticle(items[j], uuid(|out|), nowIso)];
      j := j + 1;
    }
    assert added[..j] == added;
  }

  /** fetchRSSArticles: for each feed in order, skip it on a non-ok status or
      an exception, else push one article per item. */
  method FetchRSSArticles(feeds: seq<string>, fetch: string -> FeedResponse, uuid: nat -> string, nowIso: string)
    returns (articles: seq<Article>)
    ensures articles == Collected(Responses(feeds, fetch), uuid, nowIso)
  {
    ghost var rs := Responses(feeds, fetch);
    articles := [];
    var f := 0;
    while f < |feeds|
      invariant 0 <= f <= |feeds|
      invariant articles == Collected(rs[..f], uuid, nowIso)
    {
      var response := fetch(feeds[f]);
      CollectedStep(rs, f, uuid, nowIso);
      if !response.Parsed? {
        f := f + 1;
        continue;
      }
      articles := PushItems(articles, response.items, uuid, nowIso);
      f := f + 1;
    }
    assert rs[..|feeds|] == rs;
  }
}
