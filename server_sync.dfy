/** The pure parts of the two server flows: turning fetched posts into quotes and
    merging them with the stored list (fetchQuotesFromServer), and turning quotes
    into POST bodies (syncQuotesWithServer). */
module ServerSync {
  import opened QuoteData

  /** An item of the GET response; only its `title` is read. */
  datatype ServerPost = ServerPost(title: string)

  /** The JSON body of one POST request. */
  datatype PostBody = PostBody(title: string, body: string)

  /** The category every fetched quote is given. */
  const ServerCategory: string := "Server"

  /** `data.map(post => ({ text: post.title, category: 'Server' }))` */
  function ServerQuotes(posts: seq<ServerPost>): seq<Quote> {
    seq(|posts|, i requires 0 <= i < |posts| => Quote(posts[i].title, ServerCategory))
  }

  /** `[...serverQuotes, ...localQuotes]`: fetched quotes first, then the stored
      list, with no de-duplication. */
  function Merged(posts: seq<ServerPost>, local: seq<Quote>): seq<Quote> {
    ServerQuotes(posts) + local
  }

  /** The first |posts| slots of a merge are the fetched titles under the
      category "Server"; the rest is the stored list, unchanged and in order. */
  lemma MergedShape(posts: seq<ServerPost>, local: seq<Quote>)
    ensures |Merged(posts, local)| == |posts| + |local|
    ensures forall i :: 0 <= i < |posts| ==>
              Merged(posts, local)[i] == Quote(posts[i].title, ServerCategory)
    ensures Merged(posts, local)[|posts|..] == local
  {
  }

  /** Merging the same response twice prepends it twice: every pull grows the
      list by the number of fetched posts. */
  lemma MergedTwice(posts: seq<ServerPost>, local: seq<Quote>)
    ensures Merged(posts, Merged(posts, local)) == ServerQuotes(posts) + ServerQuotes(posts) + local
    ensures |Merged(posts, Merged(posts, local))| == 2 * |posts| + |local|
  {
  }

  /** One `{title: quote.text, body: quote.category}` per quote, in list order. */
  function PushBodies(quotes: seq<Quote>): seq<PostBody> {
    seq(|quotes|, i requires 0 <= i < |quotes| => PostBody(quotes[i].text, quotes[i].category))
  }

  /** What a receiver rebuilds from one POST body: the text travels as `title`
      and the category as `body`. */
  function BodyQuote(b: PostBody): Quote {
    Quote(b.title, b.body)
  }

  /** A push loses nothing: there is one body per quote, and body i gives back
      quote i. */
  lemma PushBodiesFaithful(quotes: seq<Quote>)
    ensures |PushBodies(quotes)| == |quotes|
    ensures forall i :: 0 <= i < |quotes| ==> BodyQuote(PushBodies(quotes)[i]) == quotes[i]
  {
  }

  /** The bodies of a concatenation are the bodies of its parts, concatenated:
      the push after an add re-sends the bodies of every earlier quote, then the
      new one. */
  lemma PushBodiesAppend(a: seq<Quote>, b: seq<Quote>)
    ensures PushBodies(a + b) == PushBodies(a) + PushBodies(b)
  {
  }
}
