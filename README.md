# Whisper Wall — a Dafny model

Whisper Wall is an anonymous note wall. Visitors read short notes, each a
quote with no author, and post their own. The notes live in a table of a
hosted Postgres backend, and a built-in list of eighteen notes stands in
when the backend is not configured or has nothing to show.

This project models the logic under that page:

- **`Notes`** (`notes.dfy`) is the notes service. It covers:
  - the table and column settings and their defaults;
  - the select and insert requests it builds;
  - how a backend reply becomes a list of notes or a created note;
  - the empty and absent results it falls back to.
- **`Wall`** (`wall.dfy`) is the page's view model. It covers:
  - the choice between remote notes and the built-in ones;
  - the first six shown in the grid, and the card sizes in the "all notes" overlay;
  - the 300-character composer;
  - the optimistic prepend of a posted note.

  Its state (the remote list, the composer's text, whether the composer is
  open) is a class whose methods are the page's handlers.
- **`Typewriter`** (`typewriter.dfy`) is the typing banner, which types and
  deletes ten phrases in turn. It is written as a step function and a class
  whose `Step` performs one step.
- **`TextRoll`** (`text_roll.dfy`) is the text-roll tokenizer. It walks a
  React node and splits its text into keyed word, white-space and
  line-break tokens. Pure functions say what the tokens are. The `Tokenizer`
  class builds them the way the component does, by appending to one list
  inside loops, and each of its methods is proved to produce exactly what
  those functions describe.
- **`JsText`** (`js_text.dfy`) holds the ECMAScript white-space set and
  `trim()`, which both the page and the tokenizer use.

The backend is a function parameter: it maps the request the service builds
to a reply. That keeps the request itself (table, columns, order, limit,
payload) part of the model. Whether a backend is configured is a boolean
parameter.

Three facts about the code shape the model:

- The code has no subscription to change notifications, and neither does
  the model.
- `createNote` does not check its argument. It sends whatever it is given
  and maps the returned row without filtering it. Only the page trims and
  refuses blank text.
- The service's default fetch limit is 50 (`DefaultFetchLimit`, the default
  value of the `limit` parameter). The page always asks for 60.

## Model

| member | source | states |
|---|---|---|
| JsText.IsSpace | src/components/core/text-roll.tsx:63 | definition: the ECMAScript white-space and line-terminator characters, the set both `\s` and `trim()` match |
| JsText.Trim | src/App.tsx:594-595 | the result is the input with only white space removed, and at each end removed completely: what is cut off is blank, and a non-empty result starts and ends with a non-space |
| JsText.TrimEmptyIffBlank | src/App.tsx:594 | trimming gives the empty string exactly when the text is blank, so the guard `!text.trim()` rejects exactly the blank texts |
| Notes.Configure | src/services/notes.ts:9-10 | the table is `notes` and the column `quote` when unset; a set value is used as given, even when empty |
| Notes.Columns | src/services/notes.ts:16 | definition: the three columns both queries read back, `id`, the configured column and `created_at` |
| Notes.FetchQuery | src/services/notes.ts:12-18 | no request without a backend; otherwise a select on the configured table of `id`, the column and `created_at`, newest `created_at` first, with the caller's limit, 50 when none is given |
| Notes.InsertQueryFor | src/services/notes.ts:29-36 | no request without a backend; otherwise an insert of exactly one row whose only field is the configured column holding the quote, reading back one row of the same three columns |
| Notes.ToNote | src/services/notes.ts:25 | `id` and `created_at` are copied from the row, and the quote is the column's value, or the empty string when it is missing |
| Notes.MapRows | src/services/notes.ts:24-25 | one note per row, in the same order, each the row's mapping |
| Notes.KeepQuoted | src/services/notes.ts:26 | a note is kept exactly when it is in the input with a non-empty quote, and what is kept is an order-preserving subsequence |
| Notes.KeepQuotedCounts | src/services/notes.ts:26 | every copy of a quoted note is kept: a note with a non-empty quote occurs as often in the result as in the input, one with an empty quote not at all |
| Notes.RowsOf | src/services/notes.ts:23 | a failed reply carries no rows, null data counts as no rows, and present data is taken as it is |
| Notes.FetchNotes | src/services/notes.ts:12-27 | empty without a backend and on a backend error; otherwise every note has a quote, and the notes are a subsequence of the mapped rows, so there are never more notes than rows |
| Notes.CreateNote | src/services/notes.ts:29-43 | absent without a backend and on an error; otherwise exactly the returned row mapped to a note, not filtered |
| Notes.SubsequenceMembers | src/services/notes.ts:26 | every element of a subsequence is an element of the whole |
| Notes.SubsequenceKeepsOrder | src/services/notes.ts:26 | a subsequence of a list ordered by `created_at` is ordered the same way |
| Notes.FetchKeepsBackendOrder | src/services/notes.ts:17 | when the backend returns rows newest first, the fetched notes are newest first |
| Notes.FetchWithinLimit | src/services/notes.ts:18 | when the backend honours the limit, at most `limit` notes come back, and none without a backend |
| Notes.FetchedNotesAreQuotedRows | src/services/notes.ts:23-26 | a note is fetched exactly when it is the mapping of a returned row whose column is present and non-empty, and it is fetched as many times as the mapped rows hold it |
| Notes.CreateEchoesQuote | src/services/notes.ts:29-42 | when the backend stores the payload and returns it, the created note's quote is the quote that was sent |
| Wall.Quotes | src/App.tsx:511 | one quote per note, in order |
| Wall.UsesRemote | src/App.tsx:510 | definition: the remote list is shown exactly when it is set and non-empty |
| Wall.AllNotes | src/App.tsx:510-512 | the remote list's quotes when it is set and non-empty; otherwise the six sticky notes followed by the twelve further ones; never empty |
| Wall.GridNotes | src/App.tsx:777 | the first six notes, or all of them when there are fewer |
| Wall.FallbackGridIsStickyNotes | src/App.tsx:510-512 | without remote notes the grid shows exactly the six sticky notes |
| Wall.RemoteGridIsNewest | src/App.tsx:510-511 | with remote notes the grid shows the quotes of the first (newest) six remote notes, in order |
| Wall.OverlayCardSize | src/App.tsx:441 | a card in the overlay is large exactly when its index is a multiple of 7 or of 11 |
| Wall.OverlayCardSizePeriodic | src/App.tsx:441 | the card-size pattern repeats every 77 cards |
| Wall.Prepend | src/App.tsx:598 | the created note goes first, followed by the previous list, or by nothing when the list was null |
| Wall.ShownAfterPrepend | src/App.tsx:510-512 | after a prepend the wall shows the new quote first; the remote notes shown before follow it unchanged, and the fallback notes are no longer shown |
| Wall.PostedTextShownFirst | src/App.tsx:593-599 | when the backend echoes the stored row, posting non-blank text makes its trimmed, non-empty form the first note on the wall |
| Wall.Clamp | src/App.tsx:270-271 | the composer keeps a prefix of the input: the whole input when it fits in 300 characters, otherwise exactly its first 300 |
| Wall.WallState.PostEnabled | src/App.tsx:303 | definition: the Post button is enabled exactly when the trimmed text is non-empty, that is, by `TrimEmptyIffBlank`, when the text is not blank |
| Wall.WallState.constructor | src/App.tsx:455-459 | the page starts with no remote list, an empty composer text and the composer closed, showing the built-in notes |
| Wall.WallState.InitialLoad | src/App.tsx:526-532 | the first load fetches 60 notes and replaces the list only with a non-empty result |
| Wall.WallState.PostNote | src/App.tsx:593-600 | blank text sends nothing and changes nothing; other text is sent trimmed, and a created note is prepended |
| Wall.WallState.OpenComposer | src/App.tsx:566 | the composer is open afterwards |
| Wall.WallState.CloseComposer | src/App.tsx:871 | the composer is closed afterwards |
| Wall.WallState.EditText | src/App.tsx:269-272 | the composer text becomes the input cut to 300 characters |
| Wall.WallState.Post | src/App.tsx:220-226 | blank text changes nothing; otherwise the note is posted, then the text is cleared and the composer closed |
| Typewriter.Valid | src/App.tsx:29-51 | definition: the phrase index names one of the ten phrases and the shown text is a prefix of that phrase |
| Typewriter.Next | src/App.tsx:37-58 | one animation step: type one more character, switch to deleting at the end of a phrase, delete one character, or move to the next phrase (cyclically) when the text is empty; the text is always a prefix of the current phrase |
| Typewriter.Run | src/App.tsx:34-65 | the phrase index stays among the ten phrases after any number of steps |
| Typewriter.RunKeepsValid | src/App.tsx:37-58 | the shown text stays a prefix of the current phrase after any number of steps |
| Typewriter.RunAdditive | src/App.tsx:34-65 | running m steps and then n is running m + n steps |
| Typewriter.TypingCompletes | src/App.tsx:39-41 | typing from any prefix reaches the whole phrase in as many steps as characters remain |
| Typewriter.DeletingCompletes | src/App.tsx:49-51 | deleting from any prefix reaches the empty text in as many steps as characters remain |
| Typewriter.PhraseCycle | src/App.tsx:37-58 | from an empty text, twice the phrase's length plus two steps type it, delete it and move to the next phrase |
| Typewriter.Typewriter.constructor | src/App.tsx:29-31 | the banner starts with empty text, typing, at the first phrase |
| Typewriter.Typewriter.Step | src/App.tsx:37-58 | one step moves the banner's state by the step function and keeps it valid |
| TextRoll.IsSpaceText | src/components/core/text-roll.tsx:63 | definition: `/^\s+$/`, a non-empty text made of white space only |
| TextRoll.SplitWs | src/components/core/text-roll.tsx:16 | definition: `split(/(\s+)/)`, the maximal runs, with an empty piece in front when the text is empty or starts with white space and one behind when it ends with white space; there is always at least one piece |
| TextRoll.PartToken | src/components/core/text-roll.tsx:17-22 | definition: a backslash-n piece gives a break, an empty piece nothing, any other piece a text token, keyed by the count so far and the piece index |
| TextRoll.PartsTokens | src/components/core/text-roll.tsx:17-23 | definition: the pieces' tokens in order, each keyed from the count its predecessors leave |
| TextRoll.TextTokens | src/components/core/text-roll.tsx:14-24 | definition: `pushText`, the tokens of the pieces of one text |
| TextRoll.Normalize | src/components/core/text-roll.tsx:30 | definition: `replace(/\r\n?/g, '\n')`, every CR LF pair and every lone CR becomes one LF |
| TextRoll.SplitLines | src/components/core/text-roll.tsx:31 | definition: `split('\n')`, the text between line feeds; there is always at least one line |
| TextRoll.LinesWith | src/components/core/text-roll.tsx:32-35 | definition: each line's tokens followed by a break keyed by the count and the line index, except after the last line |
| TextRoll.LinesTokens | src/components/core/text-roll.tsx:32-35 | definition: the lines' tokens with each line split by `pushText` |
| TextRoll.StrTokens | src/components/core/text-roll.tsx:28-37 | definition: the string case of `walk`, normalise, split into lines, then the lines' tokens |
| TextRoll.WalkTokens | src/components/core/text-roll.tsx:26-49 | definition: `walk`, nothing for null and other values, the string case, a number's text, an array's items, an element's children |
| TextRoll.ItemsTokens | src/components/core/text-roll.tsx:42-45 | definition: `forEach(walk)`, each item's tokens in order, each keyed from where the previous one ended |
| TextRoll.Render | src/components/core/text-roll.tsx:61-62 | definition: the text the tokens display, each text token's text and a line feed per break |
| TextRoll.RunsShape | src/components/core/text-roll.tsx:16 | each maximal run is all white space or all non-space, neighbouring runs differ in kind, and the first run starts with the text's first character |
| TextRoll.RunsConcat | src/components/core/text-roll.tsx:16 | the runs put back together give the text |
| TextRoll.SplitWsConcat | src/components/core/text-roll.tsx:16 | the pieces of `split(/(\s+)/)` put back together give the text, so splitting loses nothing |
| TextRoll.SplitWsPieces | src/components/core/text-roll.tsx:16 | every piece is empty or one kind, empty pieces occur only first or last, and neighbouring pieces alternate between white space and words |
| TextRoll.TextTokensShape | src/components/core/text-roll.tsx:14-24 | the tokens of one text have strictly increasing keys starting at the current count, and no text token is empty or mixes white space with other characters |
| TextRoll.TextTokensAlternate | src/components/core/text-roll.tsx:17-22 | of two text tokens from one text that are next to each other, one is white space and the other a word |
| TextRoll.EscapedPieceIsBreak | src/components/core/text-roll.tsx:18-19 | a piece spelling backslash-n becomes a line-break token, keyed by its position and piece index |
| TextRoll.LinesTokensShape | src/components/core/text-roll.tsx:32-35 | the tokens of a list of lines, with breaks between lines, are keyed consecutively from the current count and well formed |
| TextRoll.WalkTokensShape | src/components/core/text-roll.tsx:26-49 | the tokens of any node are keyed consecutively from the current count and well formed |
| TextRoll.ItemsTokensShape | src/components/core/text-roll.tsx:42-45 | the same for the items of an array |
| TextRoll.RenderAppend | src/components/core/text-roll.tsx:61-62 | rendering and counting breaks distribute over concatenation |
| TextRoll.PartsTokensRender | src/components/core/text-roll.tsx:17-23 | without an escaped break the tokens render back to the pieces and hold no break |
| TextRoll.TextTokensRender | src/components/core/text-roll.tsx:14-24 | a line without an escaped break renders back to itself |
| TextRoll.LinesTokensRender | src/components/core/text-roll.tsx:32-35 | lines without escaped breaks render to the lines joined by newlines, with one break between each two lines |
| TextRoll.SplitLinesCount | src/components/core/text-roll.tsx:31 | splitting on newlines gives one more line than there are newlines |
| TextRoll.SplitLinesNoBreak | src/components/core/text-roll.tsx:31 | no line holds a newline |
| TextRoll.SplitLinesJoin | src/components/core/text-roll.tsx:31 | the lines joined by newlines give back the text |
| TextRoll.NormalizeRemovesCR | src/components/core/text-roll.tsx:30 | after normalising, no carriage return is left |
| TextRoll.NormalizeKeepsPlain | src/components/core/text-roll.tsx:30 | a text without carriage returns is left unchanged |
| TextRoll.StrTokensRoundTrip | src/components/core/text-roll.tsx:28-37 | a string without escaped breaks renders back to its normalised form, with one break token per newline |
| TextRoll.ItemsTokensAppend | src/components/core/text-roll.tsx:42-45 | walking two lists of items one after the other is walking their concatenation |
| TextRoll.Tokenizer.constructor | src/components/core/text-roll.tsx:13 | the output list starts empty |
| TextRoll.Tokenizer.PushText | src/components/core/text-roll.tsx:14-24 | the loop appends exactly the tokens of the text, keyed from the current count |
| TextRoll.Tokenizer.PushLines | src/components/core/text-roll.tsx:32-35 | the loop appends exactly each line's tokens, with a break after every line but the last |
| TextRoll.Tokenizer.Walk | src/components/core/text-roll.tsx:26-49 | the walk appends exactly the tokens of the node: nothing for null and other values, the lines of a normalised string, a number's text, each array item in turn, an element's children |
| TextRoll.Tokenize | src/components/core/text-roll.tsx:12-53 | the tokens are those of the node keyed from 0; all keys differ; every text token is non-empty and is either all white space or a word without white space |

## Left out

- The backend client (`src/lib/supabaseClient.ts`) is not part of this
  model. Creating the client, the network and the query builder become the
  backend function parameter, and `hasSupabase()` becomes a boolean.
- Error logging to the console and the page's `try`/`catch` around the
  first load are left out. A thrown load leaves the list unchanged, which is
  what `InitialLoad` does on an empty result.
- Wall.WallState.InitialLoad: the load is asynchronous in the page. If it
  finishes after a post, it replaces the list, and the prepended note then
  stays only if the backend returns it. Interleavings of the two are not
  modelled.
- Wall.WallState.PostNote: the post is asynchronous too. The model runs
  `createNote` and the prepend as one step.
- Notes.CreateNote: the backend answer is reduced to an error or a row. A
  reply with neither an error nor data (which would throw in the code) is
  not modelled.
- Typewriter: the delays (100, 2000 and 50 milliseconds) and the timers are
  left out, because only the order of steps is modelled and not when they
  happen.
- TextRoll: keys are modelled by structure, as the position and the piece
  index with the prefix given by the token's kind, not as strings.
- TextRoll: a number carries its `String(n)` text, because JavaScript's
  number formatting is not modelled.
- TextRoll: strings are sequences of characters, not UTF-16 code units.
- Wall.Clamp: the 300 cap counts characters, while `slice` and `length`
  count UTF-16 code units. A character outside the Basic Multilingual Plane
  counts once here but twice on the page, and a cut that splits a surrogate
  pair cannot be represented.
- Wall.WallState.EditText: the composer text is cut by `Clamp`, so the cap
  counts characters, not UTF-16 code units, as for `Clamp`.
- TextRoll: the component's rendering is left out. That covers the
  reduced-motion switch and the roll-up animation, with its `delay + i *
  stagger` timing, which is floating point.
- Page visuals are left out: the parallax scrolling, the cursor glow, the
  ripples, the morphing overlays and the note viewer. They hold no note
  logic and work on floating-point positions.
- `src/imports/Cover.tsx`, `src/components/ui/button3d.tsx` and
  `postcss.config.js` are presentational and are not part of this model.
