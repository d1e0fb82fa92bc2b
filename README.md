# Quote widget: the quote list, its storage and its server sync

This project models the in-memory logic of a browser quote widget
(`dom-manipulation/script.js`). The widget keeps one global list of
`{text, category}` quotes. It writes that list in full to durable storage
under the key `"quotes"`, and it talks to a remote posts endpoint. The model
covers:

- **startup load**: the stored list, or a fixed three-quote seed when nothing
  is stored;
- **add**: both form inputs are trimmed as JavaScript's `trim` does, a quote is
  appended only when both are non-empty, and the whole stored list is then pushed;
- **export / import**: the exported file is the list, and an import appends the
  parsed array verbatim;
- **pull**: fetched posts become `"Server"` quotes, placed in front of the list
  read back from storage, with no de-duplication;
- **push**: one `{title, body}` POST body per stored quote, in order;
- **category index**: the distinct categories in first-seen order, after the
  `"all"` sentinel;
- **filter**: `"all"` shows everything, any other selection shows the quotes of
  that category, in order;
- **random display**: the quote at a given index.

Modules: `Text` (trim), `QuoteData` (the record, the seed, the load),
`Categories` (category index and filter), `ServerSync` (the pure parts of pull
and push) and `QuoteStore` (class `QuoteWidget`). The class holds the global
list, the stored `"quotes"` value, and the stored `"selectedCategory"` value.
Its invariant `Valid` says that storage holds the list, except at a first
start, when storage is empty and the list is the seed.

Behaviour of the code that the model keeps as it is:

- Pull and push read the list back from storage, not from memory. On a first
  start with nothing stored, the startup pull therefore drops the seed quotes,
  and a push sends nothing (`FirstStartPull`, `SyncQuotesWithServer`).
- Every pull prepends the fetched posts again, so the list grows by the number
  of posts each time (`PullTwice`, `MergedTwice`).
- A successful pull rebuilds the dropdown, whose first option `"all"` becomes
  the selected one, and its `filterQuotes` call saves `"all"` as the selected
  category. The selection re-applied at startup is therefore overwritten once
  the startup pull resolves (`FetchQuotesFromServer`, `RestoreThenPull`).
- Every push after an add re-sends all earlier quotes (`AddQuote`).
- A quote whose category is the literal `"all"` gives the dropdown a second
  `"all"` option, and selecting `"all"` always shows the whole list
  (`CategoryOptionsDistinct`). The dropdown can therefore list `"all"` twice.
- A stored empty array is loaded as an empty list, not replaced by the seed,
  because an array is truthy in JavaScript (`LoadWithStorage`).
- Malformed stored data does not fall back to the seed: `JSON.parse` throws on
  it at line 3, before the `|| seed` fallback is reached. The model treats
  storage as either absent or holding a list (see "Left out").

## Model

| member | source | states |
|---|---|---|
| QuoteData.LoadWithoutStorage | dom-manipulation/script.js:3-7 | with nothing stored the list is the three seed quotes, with their texts, categories Life, Inspiration, Happiness in that order |
| QuoteData.LoadWithStorage | dom-manipulation/script.js:3 | a stored list, even an empty one, is loaded verbatim |
| QuoteStore.QuoteWidget.Load | dom-manipulation/script.js:3-7 | startup list is the stored list or the seed; storage is untouched; the invariant holds |
| Text.SkipLeadingSpec | dom-manipulation/script.js:60-61 | the forward scan of trim passes only whitespace and line terminators and stops at the first character that is neither |
| Text.SkipTrailingSpec | dom-manipulation/script.js:60-61 | the backward scan of trim passes only whitespace and line terminators and stops after the last character that is neither |
| Text.IsTrimmableSpec | dom-manipulation/script.js:60-61 | a character is stripped by trim exactly when it is one of the 25 ECMAScript WhiteSpace and LineTerminator code points |
| Text.TrimSpec | dom-manipulation/script.js:60-61 | trim keeps one contiguous slice, drops only whitespace and line terminators around it, leaves none at either end, and is empty exactly when the input is all whitespace |
| Text.TrimOfTrimmed | dom-manipulation/script.js:60-61 | a string with no whitespace at either end is unchanged by trim |
| Text.TrimIdempotent | dom-manipulation/script.js:60-61 | trimming twice equals trimming once |
| QuoteStore.ValidatedQuote | dom-manipulation/script.js:60-63 | a quote is formed exactly when neither input is all whitespace; it is made of the trimmed inputs, both non-empty and trimmed |
| QuoteStore.ValidatedQuoteExamples | dom-manipulation/script.js:60-63 | padded inputs " a\n" and "x" give the quote ("a", "x"); an empty text is rejected |
| QuoteStore.ValidatedQuoteIgnoresPadding | dom-manipulation/script.js:60-63 | inputs that differ only by surrounding whitespace yield the same outcome |
| QuoteStore.QuoteWidget.AddQuote | dom-manipulation/script.js:59-85 | accepted iff `ValidatedQuote` forms a quote, that is iff neither input is all whitespace, iff both trimmed inputs are non-empty; then the list gains exactly the trimmed quote at the end, storage equals the list, and the push sends the bodies of all earlier quotes plus the new one; otherwise list, storage and push are unchanged or empty |
| QuoteStore.QuoteWidget.ExportQuotes | dom-manipulation/script.js:88-89 | the exported file is the whole list in order |
| QuoteStore.QuoteWidget.ImportQuotes | dom-manipulation/script.js:110-113 | a parsed file is appended verbatim: old list first, length the sum, storage equals the list; an unparsable file changes nothing |
| QuoteStore.ExportThenImport | dom-manipulation/script.js:88-113 | exporting then importing the file doubles the list |
| ServerSync.MergedShape | dom-manipulation/script.js:14-16 | a merge has length posts plus stored; its first slots are the fetched titles under "Server"; the rest is the stored list unchanged |
| ServerSync.MergedTwice | dom-manipulation/script.js:14-18 | merging the same response twice prepends it twice, growing the list by twice the post count |
| QuoteStore.QuoteWidget.FetchQuotesFromServer | dom-manipulation/script.js:10-24 | on a response the list becomes the fetched quotes followed by the stored list and is persisted, and "all" is saved as the selected category; on a failure nothing changes |
| QuoteStore.RestoreThenPull | dom-manipulation/script.js:19-20 | a selection re-applied at startup is saved, and the startup pull then replaces it with "all" |
| QuoteStore.FirstStartPull | dom-manipulation/script.js:3-18 | a first start shows the seed, and the startup pull replaces it by the fetched quotes alone |
| QuoteStore.PullTwice | dom-manipulation/script.js:14-20 | two pulls of the same response leave the response twice in front of the originally stored list, and "all" as the saved selection |
| ServerSync.PushBodiesFaithful | dom-manipulation/script.js:30-39 | one POST body per quote, and body i carries quote i's text as title and its category as body, so the quote can be rebuilt from it |
| ServerSync.PushBodiesAppend | dom-manipulation/script.js:28-41 | the bodies of a longer list extend those of its prefix, so each push re-sends all earlier quotes |
| QuoteStore.QuoteWidget.SyncQuotesWithServer | dom-manipulation/script.js:27-46 | the loop produces exactly the bodies of the stored list, which is the list itself or empty at a first start |
| QuoteStore.QuoteWidget.ShowRandomQuote | dom-manipulation/script.js:49-51 | an index below the length yields the quote at that index, which is in the list; an empty list yields none |
| Categories.Distinct | dom-manipulation/script.js:148 | the Set spread has no duplicates, holds exactly the input's values and is no longer than the input |
| Categories.DistinctSnoc | dom-manipulation/script.js:148 | adding a value to the Set spread skips it if already present and otherwise puts it last |
| Categories.DistinctFirstSeenOrder | dom-manipulation/script.js:148 | the distinct values appear in the order of their first occurrence in the input |
| Categories.DistinctCategoriesSpec | dom-manipulation/script.js:148 | the distinct categories are duplicate-free, are exactly the categories some quote has, and are in first-seen order |
| Categories.DistinctCategoriesExample | dom-manipulation/script.js:148 | categories Life, Inspiration, Life give Life then Inspiration |
| Categories.CategoryOptionsDistinct | dom-manipulation/script.js:148-159 | the dropdown options are duplicate-free exactly when no quote's category is "all" |
| Categories.WithCategory | dom-manipulation/script.js:167 | the filter result is no longer than the list, every element has the category, and a quote is in it iff it is in the list with that category |
| Categories.WithCategoryAppend | dom-manipulation/script.js:167 | filtering distributes over concatenation |
| Categories.WithCategoryIsSubsequence | dom-manipulation/script.js:167 | the filter result is an order-preserving subsequence of the list |
| Categories.WithCategoryMultiplicity | dom-manipulation/script.js:167 | each quote of the category appears as often as in the list; any other appears zero times |
| Categories.FilterBySpec | dom-manipulation/script.js:167 | "all" returns the list unchanged; another selection returns an order-preserving subsequence of matching quotes with their multiplicities |
| Categories.FilterAfterAppend | dom-manipulation/script.js:167 | appending a quote extends a selection by exactly that quote if it matches, else leaves the selection as it was |
| QuoteStore.QuoteWidget.FilterQuotes | dom-manipulation/script.js:163-178 | the displayed quotes are the selection's filter of the list; the selection is persisted; the list is untouched |

## Left out

- Durable storage writes are assumed to succeed, and the `"quotes"` key is assumed to be written by this page alone. In the code, `localStorage.setItem` can throw (for instance when the quota is exceeded, which repeated pulls make likely). In `addQuote` the throw at line 65 comes after the `push` at line 64, and in the import the throw at line 113 comes after the `push` at line 112. In both cases the in-memory list gets ahead of storage, and the rest of the handler (`populateCategories`, and the push after an add) does not run. Storage is also shared with every other tab of the same origin, so a pull (line 15) or a push (line 28) can read a list another page wrote. The model captures none of this: `Valid`, and the `stored == Some(quotes)` clauses of `AddQuote`, `ImportQuotes` and `FetchQuotesFromServer`, hold only under these two assumptions.
- DOM rendering, form creation, dropdown option elements, `alert`, `console.error` and the `DOMContentLoaded` wiring: user-interface glue. This includes re-applying the saved filter at startup. The model gives only the values these would show.
- `fetch`, `await` and the network: a pull takes the parsed response, or its absence on any failure, as a parameter. A push returns the POST bodies it would send. The push's failure part-way through a loop is not modelled.
- The 60-second `setInterval` push and overlapping pushes: timing and concurrency.
- `Math.random`: `ShowRandomQuote` takes the chosen index as a parameter, under the bound `Math.floor(Math.random() * n)` guarantees.
- `sessionStorage` of the last viewed quote, and `FileReader`, `Blob` and object URLs for import and export: browser APIs.
- JSON parse and stringify are treated as the identity on quote lists. Not modelled: a malformed stored string throwing at startup, an imported file that is not an array of quotes, and server items without a string `title`.
- Strings are sequences of Unicode scalar values. JavaScript's UTF-16 lone surrogates cannot be represented; none of them is trimmable.
- The other handlers called after a change are modelled as separate operations, not as one call chain. Two are exceptions. `FetchQuotesFromServer` calls `FilterQuotes` with `"all"`, the value the rebuilt dropdown holds, and so saves it. `AddQuote` returns the bodies of the push it starts. That `populateCategories` resets the dropdown after an add or an import is not modelled: it writes no stored state.
