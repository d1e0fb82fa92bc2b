/** The widget's mutable state: the global `quotes` array and the two durable
    storage keys it writes, with the handlers that change them. */
module QuoteStore {
  import opened QuoteData
  import opened Text
  import opened Categories
  import opened ServerSync

  /** The outcome of addQuote's check of its two form inputs: a quote made of the
      trimmed inputs when both are non-empty after trimming, otherwise none. */
  function ValidatedQuote(rawText: string, rawCategory: string): (r: Option<Quote>)
    ensures r.Some? <==> !AllTrimmable(rawText) && !AllTrimmable(rawCategory)
    ensures r.Some? ==> r.value.text != [] && r.value.category != []
                        && IsTrimmed(r.value.text) && IsTrimmed(r.value.category)
    ensures r.Some? ==> r.value == Quote(Trim(rawText), Trim(rawCategory))
  {
    TrimSpec(rawText);
    TrimSpec(rawCategory);
    var text := Trim(rawText);
    var category := Trim(rawCategory);
    if text != [] && category != [] then Some(Quote(text, category)) else None
  }

  /** Inputs that differ only in surrounding whitespace add the same quote. */
  lemma ValidatedQuoteIgnoresPadding(rawText: string, rawCategory: string)
    ensures ValidatedQuote(Trim(rawText), Trim(rawCategory)) == ValidatedQuote(rawText, rawCategory)
  {
    TrimIdempotent(rawText);
    TrimIdempotent(rawCategory);
  }

  /** The two cases of addQuote's check: padding around a quote is dropped, and
      an empty text is rejected. */
  lemma ValidatedQuoteExamples()
    ensures ValidatedQuote(" a\n", "x") == Some(Quote("a", "x"))
    ensures ValidatedQuote("", "x") == None
  {
    var s := " a\n";
    assert TrimStart(s) == 1;
    assert SkipTrailing(s, 1, 2) == 2;
    assert SkipTrailing(s, 1, 3) == 2;
    assert TrimEnd(s) == 2;
    assert Trim(s) == "a";
    assert Trim("x") == "x" by { TrimOfTrimmed("x"); }
  }

  class QuoteWidget {
    /** The global `quotes` array. */
    var quotes: seq<Quote>
    /** Durable storage under "quotes"; None while nothing has been written. */
    var stored: Option<seq<Quote>>
    /** Durable storage under "selectedCategory". */
    var savedCategory: Option<string>

    /** Every handler that changes the list writes it back in full, so storage
        holds the list, except at startup with nothing stored, when the list is
        the seed and storage is still empty. */
    ghost predicate Valid()
      reads this
    {
      stored == Some(quotes) || (stored == None && quotes == SeedQuotes)
    }

    /** Startup: the list is what storage holds, or the seed when it holds nothing. */
    constructor Load(persisted: Option<seq<Quote>>, persistedCategory: Option<string>)
      ensures Valid()
      ensures quotes == InitialQuotes(persisted)
      ensures persisted.None? ==> quotes == SeedQuotes
      ensures stored == persisted && savedCategory == persistedCategory
    {
      quotes := InitialQuotes(persisted);
      stored := persisted;
      savedCategory := persistedCategory;
    }

    /** addQuote: append the trimmed quote and persist the list when both inputs
        are non-empty after trimming, then push the whole stored list; otherwise
        reject and change nothing. */
    method AddQuote(rawText: string, rawCategory: string) returns (accepted: bool, pushed: seq<PostBody>)
      requires Valid()
      modifies this`quotes, this`stored
      ensures Valid()
      ensures accepted <==> ValidatedQuote(rawText, rawCategory).Some?
      ensures accepted <==> !AllTrimmable(rawText) && !AllTrimmable(rawCategory)
      ensures accepted <==> Trim(rawText) != [] && Trim(rawCategory) != []
      ensures accepted ==> quotes == old(quotes) + [Quote(Trim(rawText), Trim(rawCategory))]
                           && stored == Some(quotes)
                           && pushed == PushBodies(old(quotes)) + [PostBody(Trim(rawText), Trim(rawCategory))]
      ensures !accepted ==> quotes == old(quotes) && stored == old(stored) && pushed == []
    {
      TrimSpec(rawText);
      TrimSpec(rawCategory);
      var validated := ValidatedQuote(rawText, rawCategory);
      if validated.Some? {
        var quote := validated.value;
        quotes := quotes + [quote];
        stored := Some(quotes);
        accepted := true;
        pushed := SyncQuotesWithServer();
        assert pushed == PushBodies(old(quotes) + [quote]);
        PushBodiesAppend(old(quotes), [quote]);
        assert PushBodies([quote]) == [PostBody(quote.text, quote.category)];
      } else {
        accepted, pushed := false, [];
      }
    }

    /** exportQuotes: the downloaded file holds the whole list, in order. */
    method ExportQuotes() returns (file: seq<Quote>)
      ensures file == quotes
    {
      file := quotes;
    }

    /** importFromJsonFile's onload: append the parsed array verbatim, with no
        validation, and persist. A file that does not parse throws before any
        change. */
    method ImportQuotes(parsed: Option<seq<Quote>>)
      requires Valid()
      modifies this`quotes, this`stored
      ensures Valid()
      ensures parsed.Some? ==> quotes == old(quotes) + parsed.value && stored == Some(quotes)
                               && |quotes| == |old(quotes)| + |parsed.value|
                               && quotes[..|old(quotes)|] == old(quotes)
      ensures parsed.None? ==> quotes == old(quotes) && stored == old(stored)
    {
      if parsed.Some? {
        quotes := quotes + parsed.value;
        stored := Some(quotes);
      }
    }

    /** fetchQuotesFromServer: prepend the fetched posts as "Server" quotes to the
        list read back from storage, persist and replace the in-memory list. The
        dropdown is then rebuilt with "all" as its first and selected option, and
        filterQuotes saves that "all" over the stored selection. A failed request
        or response is caught and changes nothing. */
    method FetchQuotesFromServer(response: Option<seq<ServerPost>>)
      requires Valid()
      modifies this`quotes, this`stored, this`savedCategory
      ensures Valid()
      ensures response.Some? ==> quotes == Merged(response.value, StoredOrEmpty(old(stored)))
                                 && stored == Some(quotes)
                                 && savedCategory == Some(AllSentinel)
      ensures response.None? ==> quotes == old(quotes) && stored == old(stored)
                                 && savedCategory == old(savedCategory)
    {
      if response.Some? {
        var local := StoredOrEmpty(stored);
        quotes := Merged(response.value, local);
        stored := Some(quotes);
        var shown := FilterQuotes(AllSentinel);
      }
    }

    /** syncQuotesWithServer: the bodies of the POST requests, one per quote of
        the list read back from storage, in order. */
    method SyncQuotesWithServer() returns (bodies: seq<PostBody>)
      ensures bodies == PushBodies(StoredOrEmpty(stored))
      ensures Valid() ==> bodies == PushBodies(if stored.None? then [] else quotes)
    {
      var local := StoredOrEmpty(stored);
      bodies := [];
      for k := 0 to |local|
        invariant |bodies| == k
        invariant forall i :: 0 <= i < k ==>
                    bodies[i] == PostBody(local[i].text, local[i].category)
      {
        bodies := bodies + [PostBody(local[k].text, local[k].category)];
      }
      ghost var spec := PushBodies(local);
      assert |spec| == |bodies|;
      assert forall i :: 0 <= i < |bodies| ==> spec[i] == bodies[i];
    }

    /** showRandomQuote, given the index `Math.floor(Math.random() * quotes.length)`
        picks: the quote at that index, or none on an empty list, where the
        handler fails on reading the missing quote's text. */
    method ShowRandomQuote(index: nat) returns (shown: Option<Quote>)
      requires quotes == [] ==> index == 0
      requires quotes != [] ==> index < |quotes|
      ensures shown.Some? <==> quotes != []
      ensures shown.Some? ==> shown.value == quotes[index] && shown.value in quotes
    {
      if index < |quotes| {
        shown := Some(quotes[index]);
      } else {
        shown := None;
      }
    }

    /** filterQuotes: the quotes displayed for a selection; the selection is
        persisted, the list is not touched. */
    method FilterQuotes(selection: string) returns (shown: seq<Quote>)
      modifies this`savedCategory
      ensures shown == FilterBy(quotes, selection)
      ensures savedCategory == Some(selection)
    {
      shown := FilterBy(quotes, selection);
      savedCategory := Some(selection);
    }
  }

  /** A first start with nothing stored shows the seed, but the startup pull reads
      storage, which is still empty: the seed is dropped and only the fetched
      quotes remain. */
  method FirstStartPull(posts: seq<ServerPost>) returns (before: seq<Quote>, after: seq<Quote>)
    ensures before == SeedQuotes
    ensures after == ServerQuotes(posts)
  {
    var widget := new QuoteWidget.Load(None, None);
    before := widget.quotes;
    widget.FetchQuotesFromServer(Some(posts));
    after := widget.quotes;
  }

  /** At startup the saved selection is re-applied while the pull is still in
      flight; once the pull resolves it saves "all" over it. */
  method RestoreThenPull(persisted: Option<seq<Quote>>, selection: string, posts: seq<ServerPost>)
    returns (restored: Option<string>, afterPull: Option<string>)
    ensures restored == Some(selection)
    ensures afterPull == Some(AllSentinel)
  {
    var widget := new QuoteWidget.Load(persisted, Some(selection));
    var shown := widget.FilterQuotes(selection);
    restored := widget.savedCategory;
    widget.FetchQuotesFromServer(Some(posts));
    afterPull := widget.savedCategory;
  }

  /** Two pulls of the same response prepend it twice, and leave "all" as the
      stored selection. */
  method PullTwice(widget: QuoteWidget, posts: seq<ServerPost>)
    requires widget.Valid()
    modifies widget
    ensures widget.Valid()
    ensures widget.quotes == ServerQuotes(posts) + ServerQuotes(posts) + StoredOrEmpty(old(widget.stored))
    ensures |widget.quotes| == 2 * |posts| + |StoredOrEmpty(old(widget.stored))|
    ensures widget.savedCategory == Some(AllSentinel)
  {
    widget.FetchQuotesFromServer(Some(posts));
    widget.FetchQuotesFromServer(Some(posts));
    MergedTwice(posts, StoredOrEmpty(old(widget.stored)));
  }

  /** Exporting and importing the exported file appends a second copy of the list. */
  method ExportThenImport(widget: QuoteWidget)
    requires widget.Valid()
    modifies widget
    ensures widget.Valid()
    ensures widget.quotes == old(widget.quotes) + old(widget.quotes)
    ensures |widget.quotes| == 2 * |old(widget.quotes)|
  {
    var file := widget.ExportQuotes();
    widget.ImportQuotes(Some(file));
  }
}
