# SquadS blog-from-URLs generator: a Dafny model of its session logic

The application is a single Streamlit script. A user types a list of web
addresses and the script fetches each page through a content-extraction
proxy. It asks a language model for blog-post ideas based on the pages and
parses the reply into an idea list. For any idea, the user can ask for a
Markdown draft and then refine it with free-text instructions. Everything
lives in the Streamlit session state:

- `urls`: the URL input slots;
- `ideas`: the parsed ideas;
- `generated_blogs`: drafts keyed `"blog_i"` by the position `i` of their idea;
- `tone`, `length` and `model`: the sidebar's generation settings, written
  again from their widgets on every run.

This project models that logic as pure functions over an immutable `Session`
value and proves the following properties about it:

- the URL list never becomes empty;
- the idea parser keeps exactly the non-blank reply lines, stripped and in order;
- a fetch error is indistinguishable from page text;
- regenerating ideas leaves every stored draft in place, stale ones included;
- generating a draft writes only a missing key;
- refining overwrites only its own key.

Modules, one file each:

- `Wrappers` (`wrappers.dfy`): `Option`, for calls that may raise.
- `Text` (`text.dfy`): Python's `str.strip()`, using the exact `str.isspace()`
  character set, plus `str.split("\n")` and `"\n".join(...)`. Split and join
  are proved inverse to each other.
- `Decimal` (`decimal.dfy`): Python's `str(int)` and a parser that reads its
  output back. The parser shows that no two integers render the same.
- `UrlList` (`urllist.dfy`): `add_url`, `remove_url`, the in-place edit and
  the non-blank URL filter.
- `Ideas` (`ideas.dfy`): the reply parser of `generate_blog_ideas`.
- `Fetch` (`fetch.dfy`): the status decision of `get_website_content`, and
  fetching and joining a list of pages.
- `SessionStore` (`session.dfy`): the session record and the four user
  actions, each alone and in arbitrary sequences.

The outside world is passed in as function parameters:

- `web: string -> Option<Response>` is the HTTP exchange for a target URL.
  `None` means `requests.get` raised.
- `llm: Request -> Option<string>` is the chat-completion call. `None` means
  it raised. A `Request` records what each prompt is built from: contents,
  idea count, tone, length and model for ideas; the idea too for a draft; the
  draft, the user's instruction and the model for a refinement.

A call that raises ends the script run, so the state it would have written
keeps its old value (`Notice.Raised`). An action whose button the page does
not show for the current state leaves everything unchanged
(`Notice.Ignored`). That covers a draft request for an idea that already has
a draft, and a refinement of an idea without one.

Three behaviours of the code are worth spelling out:

- `generated_blogs` is never cleared when the idea list is replaced, so a
  draft of an idea that no longer exists survives
  (`SessionStore.StaleDraftSurvives`).
- Draft generation fetches the pages again without the "no valid URL" check
  that idea generation makes. With only blank URLs it sends empty contents to
  the model (`Fetch.Contents`, `SessionStore.GenerateDraft`).
- A draft is never generated twice for the same idea: the "Generar Blog"
  button disappears once the idea's key exists, so a second request changes
  nothing (`SessionStore.GenerateDraftIdempotent`).

## Model

| member | source | states |
|---|---|---|
| Text.Strip | streamlit_app.py:72 | `str.strip()`, as used here and on the URLs at line 169. Its contract is carried by `StripShape` (non-space ends, input characters only, empty exactly for all-whitespace input) and `StripExact` (leading and trailing whitespace runs are removed and nothing else). |
| Text.StripShape | streamlit_app.py:169 | `strip()` returns text with no whitespace at either end, built only from characters of the input. It is empty exactly when the input is all whitespace, which is when `url.strip()` is false. |
| Text.StripExact | streamlit_app.py:72 | Stripping whitespace + a piece with non-space ends + whitespace returns exactly that piece, so `strip()` removes precisely the whitespace runs at both ends. |
| Text.StripIdempotent | streamlit_app.py:72 | Stripping twice is stripping once. |
| Text.Lines | streamlit_app.py:71 | `split("\n")` yields at least one piece, and no piece contains a newline. |
| Text.LinesCount | streamlit_app.py:71 | `split("\n")` yields one more piece than the text has newlines. |
| Text.JoinLines | streamlit_app.py:171 | `"\n".join(...)`, as used here and again at line 107. Its contract is carried by `JoinLinesOfLines` and `LinesOfJoinLines` (inverse of the split) and `LinesOfJoinLinesEach` (the lines of a join are each text's lines in order). |
| Text.JoinLinesOfLines | streamlit_app.py:71 | Joining the pieces of a split with `"\n"` rebuilds the original reply: the split loses nothing. |
| Text.LinesOfJoinLines | streamlit_app.py:171 | Splitting a `"\n".join` of a non-empty list of newline-free texts gives those texts back (the empty list joins to `""`, which splits to `[""]`). |
| Text.LinesAround | streamlit_app.py:71 | The pieces of `a + "\n" + b` are the pieces of `a` followed by those of `b`. |
| Text.NonBlank | streamlit_app.py:169 | The filter `if s.strip()` keeps only non-blank entries and never lengthens the list. |
| Text.NonBlankMembers | streamlit_app.py:169 | The filter keeps an entry iff it is in the list and not blank. |
| Text.NonBlankAppend | streamlit_app.py:169 | The filter distributes over concatenation, so it keeps the non-blank entries in their original order and multiplicity. |
| Text.NonBlankIdempotent | streamlit_app.py:169 | Filtering twice equals filtering once. |
| Text.JoinLinesKeepsLines | streamlit_app.py:171 | Joining fetched texts never merges them: the joined contents have at least one line per text. |
| Text.LinesOfJoinLinesEach | streamlit_app.py:171 | Splitting a `"\n"`-join of a non-empty list gives the pieces of every joined text, one text after another. |
| Decimal.NatToString | streamlit_app.py:104 | `str(i)` of an index in `f"blog_{i}"`: a non-empty run of decimal digits with no leading zero except for 0 itself. |
| Decimal.NatToStringInjective | streamlit_app.py:104 | Distinct indices render as distinct digit strings in `f"blog_{i}"`. |
| Decimal.ParseIntToString | streamlit_app.py:38 | The decimal rendering of any status code, negative ones included, parses back to that code. |
| Decimal.ParseInt | streamlit_app.py:38 | The reader of `str(int)` accepts only the exact text `str` writes: whatever it reads back as `i` is `str(i)`, so leading zeros and `"-0"` are refused. With `ParseIntToString` printing and reading are inverse both ways. |
| Decimal.NatToStringOfDigitsValue | streamlit_app.py:104 | Every canonical numeral (digits, no leading zero except `"0"`) is `str` of the number it denotes. |
| Decimal.IntToString | streamlit_app.py:38 | `str(status_code)`: a minus sign exactly for a negative number, then a canonical numeral (no leading zero except `"0"`, never `"-0"`) whose value is the absolute value of the code. |
| Decimal.IntToStringInjective | streamlit_app.py:38 | Distinct status codes render differently. |
| UrlList.AddUrl | streamlit_app.py:22-23 | Adding a slot makes the list one longer, keeps every earlier entry and puts `""` last. |
| UrlList.RemoveUrl | streamlit_app.py:26-29 | Removing index `i` of a longer list drops exactly that entry and shifts the later ones down. Removing the only entry leaves exactly `[""]`. The result is never empty. |
| UrlList.EditUrl | streamlit_app.py:154 | The edited slot holds the typed value; every other slot and the length are unchanged. |
| UrlList.ApplyEdit | streamlit_app.py:151-160 | Any add, remove or edit of a non-empty list leaves it non-empty; an index the list lacks changes nothing. |
| UrlList.EditsKeepNonEmpty | streamlit_app.py:18-29 | Any sequence of adds, removes and edits from a non-empty list leaves it non-empty. |
| UrlList.RemoveUndoesAdd | streamlit_app.py:22-29 | Removing the slot just added restores the list. |
| UrlList.ValidUrls | streamlit_app.py:169 | Every URL that is fetched is non-blank, and there are no more of them than slots. |
| UrlList.AddKeepsValidUrls | streamlit_app.py:169 | A new blank slot never changes which URLs are fetched, and the initial `[""]` has no valid URL. |
| Ideas.KeepIdeas | streamlit_app.py:72 | Every kept idea is non-empty and stripped, and there are no more ideas than lines. |
| Ideas.ParseIdeas | streamlit_app.py:71-72 | Every parsed idea is non-empty, has no leading or trailing whitespace and lies on one line. |
| Ideas.KeepIdeasIsStripOfNonBlank | streamlit_app.py:72 | Keeping ideas is filtering out the blank lines and then stripping each kept line, in order. So the idea count is exactly the number of non-blank lines. |
| Ideas.ParseIdeasCount | streamlit_app.py:71-72 | The ideas of a reply are exactly its non-blank `"\n"`-separated lines, stripped and in order, one idea per non-blank line. |
| Ideas.ParseIdeasOfLine | streamlit_app.py:72 | A blank line contributes no idea; any other line contributes exactly its stripped text. |
| Ideas.ParseIdeasAround | streamlit_app.py:71-72 | The ideas of `a + "\n" + b` are the ideas of `a` followed by those of `b`. With `ParseIdeasOfLine`, this fixes content, order and count: one idea per non-blank line. |
| Ideas.ParseIdeasOfJoinLines | streamlit_app.py:71-72 | Well-formed ideas written one per line parse back to exactly the same list. |
| Ideas.ThreeIdeasWithGap | streamlit_app.py:71-72 | Three ideas with an empty line before the third give exactly three ideas, the empty line dropped. |
| Ideas.NumberedReplyExample | streamlit_app.py:71-72 | A numbered three-item reply with an empty line parses into its three items, in order. |
| Fetch.FetchError | streamlit_app.py:38 | The error text starts with the fixed prefix and reads back as the status code; by `ParseFetchErrorExact` that makes it exactly the prefix followed by `str(status_code)`. |
| Fetch.ContentOf | streamlit_app.py:35-38 | Status 200 yields the body unchanged. Any other status yields text that reads back as that status, which by `ParseFetchErrorExact` is exactly the fixed prefix followed by `str(status_code)`. |
| Fetch.ParseFetchErrorExact | streamlit_app.py:38 | A text reads back as status `s` exactly when it is the prefix followed by `str(s)`: the error message has one spelling per status. |
| Fetch.FetchErrorInjective | streamlit_app.py:38 | Distinct failing status codes give distinct error texts. |
| Fetch.ErrorLooksLikeContent | streamlit_app.py:35-38 | A page whose body is the error text for status `s` is indistinguishable from a failed fetch with status `s`, whatever that response's body. |
| Fetch.GetWebsiteContent | streamlit_app.py:32-38 | There is a text iff the request did not raise, and it is the status decision of the response: the body for status 200, the error text carrying the status otherwise. |
| Fetch.FetchAll | streamlit_app.py:171 | Fetching succeeds iff no request raised; then there is one text per URL, in URL order, each the status decision of its response. |
| Fetch.Contents | streamlit_app.py:171 | The joined contents exist iff no request raised, and are the fetched texts (one per URL, in order) joined with `"\n"`. No URL gives `""`; one URL gives its text alone; each URL adds at least one line. |
| Fetch.ContentsLines | streamlit_app.py:171 | The lines of the joined contents are the lines of each URL's text, URL after URL: the join neither drops nor merges a line. |
| SessionStore.BlogKey | streamlit_app.py:104 | Every draft key begins with `blog_` followed by at least one character. |
| SessionStore.BlogKeyInjective | streamlit_app.py:104 | Distinct idea indices have distinct draft keys. |
| SessionStore.SiteContents | streamlit_app.py:169-171 | The filter and join shared with line 107. The contents of the non-blank URLs exist iff no request for one of them raised, and are the fetched texts of those URLs, in list order, joined with `"\n"`. With no non-blank URL they are `""`, which is what a draft request sends for a list of blank slots. |
| SessionStore.EditUrls | streamlit_app.py:151-160 | The URL list becomes the edited list (append, pop or item assignment); ideas and drafts are untouched and the list stays non-empty. |
| SessionStore.GenerateIdeas | streamlit_app.py:167-176 | With no non-blank URL nothing changes. The action succeeds iff there is a valid URL, no fetch raised and the model answered. On success, the parsed reply replaces the ideas; the URLs and drafts never change. On failure the state is unchanged. |
| SessionStore.GenerateDraft | streamlit_app.py:104-109 | Acts only on an existing idea without a draft. It succeeds exactly when that is the case, the pages are fetched and the model answers; then that idea's key holds the reply verbatim. No other key, the URLs and the ideas never change. Failure leaves the state unchanged. |
| SessionStore.DraftStored | streamlit_app.py:104-109 | For an idea without a draft, with fetched pages and an answering model, the drafts become the old drafts with the reply stored under that idea's key. |
| SessionStore.DraftExample | streamlit_app.py:104-109 | Idea 1 without a draft and the reply `"# Title\nBody"`: afterwards `blog_1` holds that text and is the only draft. |
| SessionStore.RefineDraft | streamlit_app.py:113-120 | Acts only on an idea with a draft. It succeeds exactly when that is the case and the model answers; then the reply overwrites that key. The key set, every other key, the URLs and the ideas never change. A raised call leaves the old draft. |
| SessionStore.RefineStored | streamlit_app.py:113-120 | For an idea with a draft and an answering model, the drafts become the old drafts with that key overwritten by the reply. |
| SessionStore.DraftActionsKeepOtherDrafts | streamlit_app.py:104-120 | Generating or refining the draft of idea `i` leaves the draft slot of every other idea `j` as it was. |
| SessionStore.GenerateDraftIdempotent | streamlit_app.py:104-109 | A second draft request for the same idea, with the same answers, changes nothing more. |
| SessionStore.DraftThenRefine | streamlit_app.py:104-120 | Generating and then refining a draft leaves the refined text under that key, and every other key as it was before both actions. |
| SessionStore.IdeasFromReply | streamlit_app.py:167-172 | With a non-blank URL whose pages all fetch, and a model that answers, idea generation succeeds. The idea list is then exactly the parse of the answer. |
| SessionStore.IdeasAreTheReplyLines | streamlit_app.py:172 | When the model writes well-formed ideas one per line, the idea list becomes exactly those ideas, whatever idea count was requested. |
| SessionStore.Step | streamlit_app.py:151-176 | Every action keeps the URL list non-empty and never deletes a draft. |
| SessionStore.RunInvariant | streamlit_app.py:13-29 | Along any sequence of actions, the URL list stays non-empty and the set of draft keys only grows. |
| SessionStore.UrlsNeverEmpty | streamlit_app.py:18-19 | From the initial state, the URL list is never empty, whatever actions follow. |
| SessionStore.StaleDraftSurvives | streamlit_app.py:172 | After new ideas are generated, a draft stored for idea 1 survives even though the new list has a single idea. |

## Left out

- Page layout and widgets (title, expanders, spinners, success and error
  messages, the 100-character idea preview) are presentation.
  `Notice` only records which message a run ends with.
- The text of the three prompts and of the system messages is not modelled.
  The OpenAI client and its API key from `os.getenv` are foreign calls. The
  model's replies are the `llm` parameter, and a `Request` records only what
  each prompt is built from.
- `requests.get` and the `https://r.jina.ai/` address are network I/O. The
  `web` parameter maps a target URL straight to its response, or to `None`
  when the call raised.
- The sidebar bounds (1–15 ideas, 250–10000 characters, defaults 5,
  `"profesional"` and 1000) are enforced by the widgets. `Params` accepts any
  values because nothing in the modelled logic depends on them.
- Python's negative indices for `list.pop` are left out, because the page
  only passes indices from `enumerate`. An index the list lacks is a no-op,
  as `IndexError` is raised before the list changes.
- Within one rerun, the sidebar loop keeps iterating after a removal, and
  widget keys `url_{i}` can shift to other entries. These Streamlit
  rendering details are not modelled: each edit is one atomic action.
- `tone`, `length` and `model` are not fields of `Session`. Lines 163-165
  overwrite them from their widgets on every run, before line 172 or
  `display_idea_cards` (line 180) reads them. An action therefore always sees
  the values of its own run, which is what the `Params` argument of each
  action carries.
- The model holds one web and one language model per action, so a page that
  changes between idea generation and draft generation is just a different
  `web` in the next event. Timing, timeouts and concurrency are not modelled.
