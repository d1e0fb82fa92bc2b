/** The quote record, the seed list and what startup loads from durable storage. */
module QuoteData {

  datatype Option<T> = None | Some(value: T)

  /** One `{text, category}` record. Duplicates are allowed and indistinguishable. */
  datatype Quote = Quote(text: string, category: string)

  /** The three quotes the widget starts with when nothing is stored under "quotes". */
  const SeedQuotes: seq<Quote> := [
    Quote("Life is what happens when you're busy making other plans.", "Life"),
    Quote("The greatest glory in living lies not in never falling, but in rising every time we fall.", "Inspiration"),
    Quote("The purpose of our lives is to be happy.", "Happiness")
  ]

  /** `JSON.parse(localStorage.getItem('quotes')) || seed`: an absent key (parsed
      to null) gives the seed; any stored array, even an empty one, is truthy and
      is used as it is. */
  function InitialQuotes(stored: Option<seq<Quote>>): seq<Quote> {
    match stored
    case None => SeedQuotes
    case Some(saved) => saved
  }

  /** `JSON.parse(localStorage.getItem('quotes')) || []`, the read that the pull
      and the push make of durable storage. */
  function StoredOrEmpty(stored: Option<seq<Quote>>): seq<Quote> {
    match stored
    case None => []
    case Some(saved) => saved
  }

  /** With nothing stored, the list is the three seed quotes, with their texts,
      in the categories Life, Inspiration, Happiness in that order. */
  lemma LoadWithoutStorage()
    ensures |InitialQuotes(None)| == 3
    ensures InitialQuotes(None)[0].category == "Life"
    ensures InitialQuotes(None)[1].category == "Inspiration"
    ensures InitialQuotes(None)[2].category == "Happiness"
    ensures InitialQuotes(None)[0].text == "Life is what happens when you're busy making other plans."
    ensures InitialQuotes(None)[1].text == "The greatest glory in living lies not in never falling, but in rising every time we fall."
    ensures InitialQuotes(None)[2].text == "The purpose of our lives is to be happy."
  {
  }

  /** A stored list is loaded verbatim, including a stored empty list: the seed
      is used only when nothing is stored. */
  lemma LoadWithStorage(saved: seq<Quote>)
    ensures InitialQuotes(Some(saved)) == saved
    ensures InitialQuotes(Some([])) == []
  {
  }
}
