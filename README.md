# ChartQA backend core in Dafny

This project models the logic of the ChartQA backend, which sits between a
DePlot chart-to-table model, an Ollama LLM server and a browser client. There
are two files, `backend/chart_analyzer.py` and `backend/app.py`. The model
covers what runs once every I/O result is treated as an input:

- **The chart-table parser** (`ChartAnalyzer`). This is the part of
  `extract_table_from_chart` that turns the decoder's text into a title, a
  header row and data rows:
  - the text is split on the `<0x0A>` token;
  - a first pass over pipe-delimited lines picks out the title, the header
    row and the data rows;
  - a whitespace-token fallback pass, with its digit test, runs when the
    first pass leaves headers or data empty;
  - everything is padded to a rectangle, or replaced by the fixed placeholder
    table when no data row exists.

  `Extract` is the specification. `ExtractTable` is the step-by-step
  procedure, proved equal to it.
- **The prompt builder of `ask_local_llm`** (`ChartAnalyzer`). It runs the
  colour-keyword test and chooses between the two instruction suffixes.
- **The Python string operations** the parser relies on, over ASCII
  (`PyStr`). They are `split(sep)`, `split()`, `strip()`, `in`,
  `upper()`/`lower()`, `isdigit()`, `replace(c, '')`, `sep.join` and `str(n)`.
- **The request rules of `app.py`**:
  - `allowed_file` (`Uploads`);
  - the 30-second Ollama status cache and the `/status` route, as a class
    with an explicit clock (`StatusCache`);
  - the upload checks and the row-to-dictionary serialisation of `/extract`
    (`ExtractRoute`);
  - the validation order and model fallback of `/question`
    (`QuestionRoute`);
  - the `retry_on_failure` loop over an abstract sequence of attempt
    outcomes (`Retry`);
  - the per-session conversation history of `/api/generate`, as a class
    holding the `conversation_contexts` map (`Conversation`).

Inputs stand in for I/O:

- The DePlot decoder's output is the string parameter `rawOutput` /
  `decoded`.
- What `check_ollama_status()` does is a `Probe`: completed with
  `(running, models)`, or raised.
- What `ask_local_llm` answers is the string parameter `answer`. The routes
  report the arguments they would pass to it as an `LlmRequest`, and the
  prompt those arguments make is `BuildPrompt`.
- Each read of the clock is a parameter: `now` for the lookup and
  `storedAt` for the later read inside the cache update.
- Sleeps are counted.

## Model

| member | source | states |
|---|---|---|
| PyStr.IndexOf | backend/chart_analyzer.py:66 | the result is the first position where the separator occurs; None means it occurs nowhere |
| PyStr.Split | backend/chart_analyzer.py:66 | splitting on a non-empty separator always gives at least one piece |
| PyStr.Join | backend/app.py:437 | `sep.join(parts)`: the pieces in order with the separator between neighbours; its properties are stated by JoinSplitChar and SplitJoin |
| PyStr.SplitJoin | backend/chart_analyzer.py:66 | joining the pieces of a split with the same separator gives back the original text |
| PyStr.SplitPieces | backend/chart_analyzer.py:76 | no piece of a split contains the separator |
| PyStr.JoinSplitChar | backend/app.py:437 | splitting a join on a one-character separator that no piece contains gives back the pieces |
| PyStr.ContainsAt | backend/chart_analyzer.py:77 | `t in s` holds exactly when t starts at some position of s |
| PyStr.MissingChar | backend/chart_analyzer.py:159 | a text does not occur in s when one of its characters is missing from s |
| PyStr.ContainsChar | backend/chart_analyzer.py:74 | `'c' in line` as a substring test is membership of the character |
| PyStr.LStrip | backend/chart_analyzer.py:76 | the result is a suffix of the input, what it drops is all whitespace, and it does not start with whitespace |
| PyStr.RStrip | backend/chart_analyzer.py:76 | the result is a prefix of the input, what it drops is all whitespace, and it does not end with whitespace |
| PyStr.IsSpace | backend/chart_analyzer.py:99-103 | the whitespace set used by `strip()` and `split()`: space, tab, line feed, carriage return, vertical tab, form feed and the separators U+001C..U+001F |
| PyStr.Contains | backend/chart_analyzer.py:74-77 | `t in s`: t occurs in s as a contiguous block, as used for `'|' in line` and `"TITLE" in line.upper()` |
| PyStr.StartsWith | backend/app.py:448 | `s.startswith(p)`: p is no longer than s and s begins with it |
| PyStr.LStripAllSpace | backend/chart_analyzer.py:99 | the left half of the `strip()` at this line (see PyStr.Strip) leaves nothing exactly when the text is all whitespace, which is what makes `not line.strip()` the all-whitespace test |
| PyStr.Strip | backend/chart_analyzer.py:76 | strip gives the empty string exactly for all-whitespace text; otherwise neither end of the result is whitespace |
| PyStr.StripInfix | backend/chart_analyzer.py:76 | the stripped text is a contiguous block of the input, and everything before and after it is whitespace |
| PyStr.StripIdempotent | backend/chart_analyzer.py:78 | stripping an already stripped cell changes nothing |
| PyStr.Words | backend/chart_analyzer.py:103 | `split()` gives non-empty tokens that hold no whitespace; where it cuts is stated by WordsSpace, WordsAllSpace and NoSpaceOneWord |
| PyStr.WordsSpace | backend/chart_analyzer.py:103 | every whitespace character separates tokens: the tokens of a + [c] + b, for whitespace c, are those of a followed by those of b |
| PyStr.WordsLeading | backend/chart_analyzer.py:103 | leading whitespace does not change the tokens |
| PyStr.WordsFirst | backend/chart_analyzer.py:103 | a word at the start, ended by whitespace or by the end of the text, is the first token, and the rest gives the others |
| PyStr.WordsAllSpace | backend/chart_analyzer.py:103 | all-whitespace text (the empty text included) has no tokens |
| PyStr.WordsUnspaced | backend/chart_analyzer.py:103 | the tokens of `split()`, concatenated, are exactly the input with its whitespace removed |
| PyStr.NoSpaceOneWord | backend/chart_analyzer.py:103 | a non-empty text without whitespace splits into itself alone; with WordsSpace and WordsAllSpace this fixes the tokens of every text |
| PyStr.Remove | backend/chart_analyzer.py:110 | `s.replace(c, '')` for one character; what it keeps is stated by RemoveOne, RemoveAppend and RemoveMembers |
| PyStr.RemoveAppend | backend/chart_analyzer.py:110 | deleting c from a + b deletes it from a and from b separately, so the other characters keep their order and number |
| PyStr.RemoveOne | backend/chart_analyzer.py:110 | a single character is deleted when it is c and kept otherwise |
| PyStr.IsDigit | backend/chart_analyzer.py:110 | `isdigit()` over ASCII: the text is non-empty and every character is a digit |
| PyStr.RemoveMembers | backend/chart_analyzer.py:110 | no c is left, and every other character that occurs in the text still occurs |
| PyStr.Upper | backend/chart_analyzer.py:77 | `upper()` keeps the length; UpperAt states the mapping |
| PyStr.UpperAt | backend/chart_analyzer.py:77 | `upper()` maps each character to its upper-case form, position by position |
| PyStr.Lower | backend/chart_analyzer.py:159 | `lower()` keeps the length; LowerAt states the mapping |
| PyStr.LowerAt | backend/chart_analyzer.py:159 | `lower()` maps each character to its lower-case form, position by position |
| PyStr.NatToString | backend/chart_analyzer.py:115 | `str(n)` is a non-empty string of decimal digits with no leading zero unless it is "0" |
| PyStr.NatToStringRoundTrip | backend/chart_analyzer.py:115 | reading the digits of `str(n)` back gives n |
| PyStr.NatToStringInjective | backend/chart_analyzer.py:115 | different numbers have different decimal strings |
| ChartAnalyzer.PipeCells | backend/chart_analyzer.py:76 | every cell taken from a pipe line is non-empty and has no whitespace at either end; the cells are the stripped non-blank segments between bars, in order, as StrippedNonBlankOne and StrippedNonBlankAppend state |
| ChartAnalyzer.StrippedNonBlank | backend/chart_analyzer.py:76 | keeping the stripped, non-blank segments never adds segments, and every kept cell is clean; which segments are kept and in what order is stated by StrippedNonBlankOne and StrippedNonBlankAppend |
| ChartAnalyzer.StrippedNonBlankOne | backend/chart_analyzer.py:76 | one segment gives its stripped text when that is non-empty, and nothing when it is blank |
| ChartAnalyzer.StrippedNonBlankAppend | backend/chart_analyzer.py:76 | the cells of two runs of segments are the cells of the first run followed by those of the second: each segment is kept or dropped on its own, in input order |
| PyStr.StripUnchanged | backend/chart_analyzer.py:76-78 | text that starts and ends with a non-space character is unchanged by strip |
| ChartAnalyzer.StrippedClean | backend/chart_analyzer.py:76 | segments that are already clean are all kept, unchanged and in order |
| ChartAnalyzer.PipeCellsJoin | backend/chart_analyzer.py:76 | clean cells without a bar, joined by bars, are read back as exactly those cells |
| ChartAnalyzer.IsTitleLine | backend/chart_analyzer.py:77 | line i names the title when its upper-cased text holds TITLE or it is line 0 |
| ChartAnalyzer.TitleCell | backend/chart_analyzer.py:78 | the title a title line gives: its last cell, stripped, or "Chart" when it has no cells |
| ChartAnalyzer.ClassifyPipe | backend/chart_analyzer.py:74-77 | the kind of line i: no bar, a title line (line 0 or holding TITLE in upper case) with its cells, or a table line with its cells; its consequences are stated by FirstPassRows and FirstPassLastTitle |
| ChartAnalyzer.FirstPassStep | backend/chart_analyzer.py:74-85 | one iteration of the first pass: a title line sets the title to its last cell or "Chart", the first table line sets the headers while they are empty, and a later table line with cells is appended to the data; ScanLine is proved equal to it |
| ChartAnalyzer.FirstPass | backend/chart_analyzer.py:67-85 | the first pass from title "Chart" and empty headers and data; FirstPassRows, FirstPassDefaultTitle and FirstPassLastTitle state what it gives |
| ChartAnalyzer.TableRows | backend/chart_analyzer.py:73-85 | the cells of the non-title pipe lines that have a cell, in input order: the rows the first pass can make headers or data |
| ChartAnalyzer.TableRowsOver | backend/chart_analyzer.py:79-85 | every row the first pass can take into the table has at least one cell |
| ChartAnalyzer.FirstPassRows | backend/chart_analyzer.py:73-85 | the first non-title pipe line with a cell becomes the header row (a cell-less one leaves the headers empty, so the next one is tried); every later non-title pipe line with cells becomes a data row, in input order; title lines and lines without a bar contribute nothing |
| ChartAnalyzer.FirstPassDefaultTitle | backend/chart_analyzer.py:69 | without a title line the title stays "Chart" |
| ChartAnalyzer.FirstPassLastTitle | backend/chart_analyzer.py:77-78 | the last title line (line 0 or one holding TITLE in upper case) sets the title to its last cell, or to "Chart" when it has none |
| ChartAnalyzer.IsCandidate | backend/chart_analyzer.py:99-104 | a line is a fallback candidate when it is not blank, holds no TITLE in upper case and has at least two whitespace tokens |
| ChartAnalyzer.LineCandidates | backend/chart_analyzer.py:99-105 | one line adds at most one row, of two or more non-empty tokens without whitespace: its tokens when it is a candidate |
| ChartAnalyzer.Candidates | backend/chart_analyzer.py:96-105 | the fallback keeps at most one row per line; each row has at least two tokens, and every token is non-empty and holds no whitespace; which lines are kept and in what order is stated by CandidatesOne and CandidatesAppend |
| ChartAnalyzer.CandidatesOne | backend/chart_analyzer.py:97-105 | one line gives its tokens when it is a candidate (not blank, no TITLE, two or more tokens) and nothing otherwise |
| ChartAnalyzer.CandidatesAppend | backend/chart_analyzer.py:97-105 | the candidates of two runs of lines are those of the first run followed by those of the second: each line is kept or skipped on its own, in input order |
| ChartAnalyzer.LooksNumeric | backend/chart_analyzer.py:110 | a token passes the digit test when deleting `.` and `%` leaves a non-empty run of digits; LooksNumericIff characterises it |
| ChartAnalyzer.LooksNumericIff | backend/chart_analyzer.py:110 | a token passes the digit test exactly when it is made of digits, dots and percent signs and holds at least one digit |
| ChartAnalyzer.HeaderLike | backend/chart_analyzer.py:110 | a candidate is taken as headers when none of its tokens passes the digit test |
| ChartAnalyzer.NegativeNumbersHeaderLike | backend/chart_analyzer.py:110-111 | a row of negative numbers fails the digit test, so the fallback takes it as a header row |
| ChartAnalyzer.GenericHeaders | backend/chart_analyzer.py:115 | n generic headers are made |
| ChartAnalyzer.GenericHeadersDistinct | backend/chart_analyzer.py:115 | the generic headers "Column 1".."Column n" are pairwise distinct |
| ChartAnalyzer.AfterFirst | backend/chart_analyzer.py:93 | `s.split(c, 1)[1]` is the text after the first occurrence of c |
| ChartAnalyzer.FallbackTitle | backend/chart_analyzer.py:92-93 | when the first line holds a colon the title becomes the stripped text after its first colon; otherwise it is left as it was |
| ChartAnalyzer.Fallback | backend/chart_analyzer.py:88-116 | the fallback pass: the title from the first line's colon, if any; with candidates it takes a header-like first candidate as headers and the rest as data, or generic headers and every candidate as data, and without candidates it keeps the first pass's headers and data; HeaderFallbackParse, NumericFallbackExtract and NoRowsExtract state it for each case, the title rule included |
| ChartAnalyzer.ParseLines | backend/chart_analyzer.py:66-116 | the first pass followed by the fallback, over the lines of the decoded text; PipeTableExtract and HeaderFallbackParse state what it gives |
| ChartAnalyzer.MaxWidth | backend/chart_analyzer.py:127 | the width bounds every row and is the length of some row (zero for no rows) |
| ChartAnalyzer.Width | backend/chart_analyzer.py:127 | the common width is at least 1, the header count and every row length, and equals one of them |
| ChartAnalyzer.PaddedFrom | backend/chart_analyzer.py:133-136 | a row extended on the right with empty cells only |
| ChartAnalyzer.PadRow | backend/chart_analyzer.py:133-136 | a padded row has the target width and is the original row followed by empty cells only |
| ChartAnalyzer.Pad | backend/chart_analyzer.py:125-140 | the padded table has at least one header and one row, and every row is as long as the headers. With data: the width is the largest of 1, the header count and the longest row; each row and the headers are prefixes of their padded versions; empty headers become "Column 1".."Column w". Without data: the fixed table ["Column 1"] / [["No data extracted"]] |
| ChartAnalyzer.Extract | backend/chart_analyzer.py:65-152 | the extracted table is rectangular with at least one header and one row, and the raw text returned is the decoder's output |
| ChartAnalyzer.PipeTableExtract | backend/chart_analyzer.py:73-88 | with a header row and a data row among the pipe lines the fallback does not run: the title is the first pass's, and the headers and data are the table rows, in order, padded with empty cells |
| ChartAnalyzer.NoRowsExtract | backend/chart_analyzer.py:88-140 | with neither two pipe table rows nor fallback candidates the result is the fixed one-cell table, and the title still comes from the text after the first line's colon when it has one (otherwise the first pass's title) |
| ChartAnalyzer.HeaderFallbackParse | backend/chart_analyzer.py:88-112 | when the fallback runs on a header-like first candidate, the headers are that candidate and the data the later candidates, with the fallback's title |
| ChartAnalyzer.HeaderFallbackExtract | backend/chart_analyzer.py:88-112 | the fallback on a header-like first candidate gives the fallback's title, that candidate padded as headers and the later candidates padded as data; a lone header-like candidate gives the fixed one-cell table |
| ChartAnalyzer.NumericFallbackExtract | backend/chart_analyzer.py:113-116 | the fallback on a numeric-looking first candidate gives the fallback's title, "Column 1".."Column n" for its n tokens as headers (padded), and every candidate as a data row, padded, in order |
| ChartAnalyzer.CandidateRows | backend/chart_analyzer.py:96-105 | the loop collecting `potential_data` computes exactly the fallback's candidate rows |
| ChartAnalyzer.ScanLine | backend/chart_analyzer.py:74-85 | one iteration of the first-pass loop does exactly the first-pass step for that line, and marks the table as started when the line has a bar |
| ChartAnalyzer.FirstPassScan | backend/chart_analyzer.py:72-85 | the first-pass loop computes exactly the first pass over all lines |
| ChartAnalyzer.ExtractTable | backend/chart_analyzer.py:65-152 | the procedure (both passes, then padding) computes exactly `Extract`: a rectangular table with at least one header and one row |
| ChartAnalyzer.IsColorQuestion | backend/chart_analyzer.py:159 | the lower-cased question holds one of the seven visual terms; PromptSuffix, CapitalisedColor and BritishColourNotVisual state its effect |
| ChartAnalyzer.BasePrompt | backend/chart_analyzer.py:162-165 | the three-line base prompt; BuildPrompt states that every prompt starts with it |
| ChartAnalyzer.BuildPrompt | backend/chart_analyzer.py:162-165 | the prompt starts with "Title: {title}\nData: {table_data}\nQuestion: {question}\n" |
| ChartAnalyzer.AppendCancel | backend/chart_analyzer.py:168-180 | two suffixes after the same base make the same prompt only when they are equal |
| ChartAnalyzer.SuffixesDiffer | backend/chart_analyzer.py:168-180 | the visual instruction block is longer than the general one, so the two differ |
| ChartAnalyzer.PromptSuffix | backend/chart_analyzer.py:159-180 | the visual instructions follow the base prompt exactly when the lower-cased question holds one of the seven terms, and the general instructions exactly when it holds none |
| ChartAnalyzer.CapitalisedColor | backend/chart_analyzer.py:159 | the test is case-insensitive: "Color" is a colour question |
| ChartAnalyzer.ColorNotInColour | backend/chart_analyzer.py:159 | "color" does not occur in "colour": they differ at the fifth letter |
| ChartAnalyzer.BritishColourNotVisual | backend/chart_analyzer.py:159 | the singular "colour" matches none of the terms and gets the general instructions |
| Uploads.LastIndexOf | backend/app.py:98 | the result is the position of the last occurrence, and None exactly when the character does not occur |
| Uploads.Extension | backend/app.py:98 | `rsplit('.', 1)[1]`: the text after the last dot, which holds no dot, ends the name, and follows a dot |
| Uploads.AllowedFile | backend/app.py:97-98 | a name is allowed exactly when it has a dot and the text after its last dot, lower-cased, is png, jpg, jpeg or gif |
| Uploads.AcceptsUpperCaseExtension | backend/app.py:98 | "a.PNG" is accepted |
| Uploads.AcceptsBareExtension | backend/app.py:98 | ".png" is accepted |
| Uploads.RejectsTrailingExtension | backend/app.py:98 | "x.png.exe" is rejected: only the last extension counts |
| Uploads.RejectsNoDot | backend/app.py:98 | "png" is rejected: a dot is required |
| StatusCache.OllamaStatusCache.constructor | backend/app.py:76-81 | the cache starts with last check 0, no status, no models and a 30-second window |
| StatusCache.OllamaStatusCache.IsFresh | backend/app.py:86 | the stored entry is fresh while now − last check is below the window |
| StatusCache.OllamaStatusCache.Lookup | backend/app.py:83-88 | a lookup gives the stored status and models exactly while now − last check < 30, and (None, None) otherwise; it reads the cache without changing it |
| StatusCache.OllamaStatusCache.Update | backend/app.py:90-94 | an update sets the last check to now and overwrites status and models; the window is unchanged |
| StatusCache.OllamaStatusCache.Status | backend/app.py:117-138 | a fresh stored status, False included, is returned without calling the check and without changing the cache. On a miss the check runs once: a completed check is stored, stamped with the clock reading of the update (not assumed later than the lookup's), and returned, and a raising one gives the failure reply and leaves the cache alone |
| StatusCache.TwoRequestsInWindow | backend/app.py:119-135 | two /status requests, the first a miss, the second looking up less than 30 s after the first stored its result, give the same reply, and the second does not call the check |
| ExtractRoute.CheckUpload | backend/app.py:273-286 | an upload passes exactly when the request has an image part and the name is allowed. The checks run in order: a missing image part comes first, then an empty name, then a name whose extension is not allowed |
| ExtractRoute.RowDictUpTo | backend/app.py:306-308 | the dictionary after the inner loop has seen the first n headers; RowDictKeys and RowDictLastWins state its keys and values |
| ExtractRoute.RowDict | backend/app.py:305-308 | `row_dict` for one row: each header with a cell maps to it, a later duplicate header overwriting; RowDictKeys, RowDictLastWins and RectangularRowDict state it |
| ExtractRoute.RowDictKeys | backend/app.py:303-309 | a row dictionary's keys are exactly the headers of the columns the row has |
| ExtractRoute.RowDictLastWins | backend/app.py:306-308 | each key maps to the cell of the last column with that header: a later duplicate overwrites an earlier one |
| ExtractRoute.RectangularRowDict | backend/app.py:303-309 | for a padded row the keys are exactly the headers, and with distinct headers every cell is kept under its header |
| ExtractRoute.PaddedHeadersCollapse | backend/app.py:306-308 | headers padded with empty names lose cells: of the columns under '' only the last survives |
| ExtractRoute.SerializeRows | backend/app.py:303-309 | the conversion loop gives one dictionary per data row, in order, each the row's header-to-cell dictionary |
| ExtractRoute.ExtractEndpoint | backend/app.py:273-317 | /extract gives the upload check's error when it fails; otherwise it gives the extracted title and headers, the serialised rows of the extracted table, and the decoder's raw text |
| QuestionRoute.ChooseModel | backend/app.py:366-370 | the chosen model is in the list when the list is non-empty; it is the requested one when that is listed or nothing is listed, and the first listed otherwise |
| QuestionRoute.HttpStatus | backend/app.py:339-392 | the status code of each reply: 400 for missing fields and short table data, 503 for Ollama down, 500 for a processing error, 200 for an answer; HandleQuestion states when each is sent |
| QuestionRoute.HasRequired | backend/app.py:339 | the body is present and holds question, table_data and title |
| QuestionRoute.RequestedModel | backend/app.py:366 | the body's model, or llama3 when it has none |
| QuestionRoute.Debug | backend/app.py:382-386 | the debug object: the model used, the table data's length and "Table data + question about {title}" |
| QuestionRoute.HandleQuestion | backend/app.py:337-392 | each error reply happens exactly under its condition, checked in order: missing fields, table data shorter than 10, Ollama down, a raising check. The LLM is asked exactly when the reply is an answer, with the body's question, table data and title and the chosen model. Debug information is present exactly when it is asked for, and names the model used. The status is 400 exactly for missing fields or short table data, 503 exactly for Ollama down, and 200 exactly for an answer |
| QuestionRoute.UnknownModelReplaced | backend/app.py:368-370 | a model Ollama does not list is replaced by the first listed model |
| Retry.FirstReturn | backend/app.py:399-401 | the first attempt within the budget that returns, with all earlier attempts raising, or None when all attempts raise |
| Retry.Expected | backend/app.py:397-407 | what the wrapper gives for a budget and a sequence of attempt outcomes: the first return within the budget, or the last exception, with the calls and sleeps made; ExpectedBounds and SuccessIff state it |
| Retry.RetryOnFailure | backend/app.py:394-409 | the wrapper's loop produces exactly the outcome `Expected` states |
| Retry.ExpectedBounds | backend/app.py:399-407 | the function is called at most max_retries times and the first return is passed on. Sleeps happen only between attempts: k−1 when attempt k succeeds, max_retries−1 after max_retries failures, when the last exception is re-raised. With a non-positive budget nothing is called and `raise None` fails |
| Retry.SuccessIff | backend/app.py:399-407 | the wrapper succeeds exactly when some attempt within the budget returns |
| Conversation.LastN | backend/app.py:437 | the last n entries, or all of them when there are fewer: min(\|h\|, n) entries, the last ones of h in order |
| Conversation.ConversationPrompt | backend/app.py:437-438 | the prompt starts with the last five entries joined by line breaks; after them it is exactly "\n\nUser: {input}\nAssistant:", so with no history it is that text alone |
| Conversation.ContextLines | backend/app.py:437 | when no entry spans several lines, the context part splits back into the last five entries |
| Conversation.WellFormed | backend/app.py:451-457 | the history shape the route keeps: at most ten entries, an even number, entry i starting with "User: " at even i and "Assistant: " at odd i; RecordTurnWellFormed and StoreWellFormed state that it is kept |
| Conversation.RecordTurn | backend/app.py:451-457 | after an exchange the history has min(\|h\|+2, 10) entries and ends with "User: {input}" then "Assistant: {answer}"; the entries before them are the last ones of the old history, in order |
| Conversation.RecordTurnWellFormed | backend/app.py:451-457 | recording an exchange keeps a history well formed: at most ten entries, in user/assistant pairs, each tagged with its speaker |
| Conversation.ContextWindowSplitsTurn | backend/app.py:437-457 | once three exchanges are stored, the five-entry window starts with an assistant entry whose question has fallen out of it |
| Conversation.ChooseModel | backend/app.py:434 | the model is the requested one if given, otherwise the first listed, otherwise llama3; it is not checked against the list |
| Conversation.HttpStatus | backend/app.py:421-462 | the status code of each reply: 400 for a missing input, 503 for Ollama down, 500 for an error, 200 for a result; Respond and Generate state when each is sent |
| Conversation.SessionOf | backend/app.py:424 | the body's session id, or "default" when it has none |
| Conversation.Respond | backend/app.py:428-462 | a raising check gives an error and a down Ollama gives 503, neither asking the LLM. Otherwise the LLM is asked with the context prompt, empty table data, the title "User Input" and the chosen model. The reply is the answer exactly when it does not start with "Error:", and only then is the exchange recorded. An "Error:" answer is the error reply. Well-formedness of the history is kept. The status is never 400, is 503 exactly when Ollama is down, and 200 exactly for a result |
| Conversation.ConversationStore.constructor | backend/app.py:412 | the store starts with no sessions |
| Conversation.ConversationStore.Generate | backend/app.py:414-462 | a body without input gives 400 and changes nothing, and 400 is sent for nothing else. Otherwise the session (default "default") is created if missing, and only that session's history changes, to what `Respond` gives; every history stays well formed |

## Left out

- Model loading, image reading and DePlot inference (backend/chart_analyzer.py:48-61): these are foreign ML library calls, so the decoded text is an input.
- The `tabulate` grid and pipe tables (backend/chart_analyzer.py:143-146): tabulate is an external library. The `formatted_table` reply field is therefore not modelled, and the pipe table is discarded by the source anyway.
- Logging throughout: it has no effect on results.
- The `except` branch of the fallback pass (backend/chart_analyzer.py:117-123) is absent from the model, because nothing in its `try` block can raise on string input:
  - the split always gives at least one line;
  - `split(":", 1)` gives two parts when the line holds a colon.
- The HTTP exchange inside `ask_local_llm` (backend/chart_analyzer.py:182-205): it is network I/O, so its answer (including its "Error: …" strings) is an input. The case where it raises something other than a request exception, which the routes turn into a 500, is not modelled.
- `check_ollama_status` (backend/chart_analyzer.py:208-218): it is network I/O, modelled only as the `Probe` outcome. `Raised` stands for any exception it lets through.
- `/full-status`, `/ollama-check`, `/test-ollama` and `/models` (backend/app.py:140-267): they only relay network results.
- `/api/analyze-chart` and `/api/ask-chart` (backend/app.py:464-533): they repeat the upload checks and the LLM call that the model covers for `/extract` and `/question`, and add only file and network I/O.
- File saving and removing, `secure_filename` and `save_analysis`: these are file I/O.
- The exception path of `/extract` (backend/app.py:322-324) is not modelled: it is reached only through file or model I/O.
- Flask and CORS setup, socket timeouts, security headers and the `requests` retry adapter: these are framework configuration.
- The SIGINT handler: it handles process signals.
- JSON decoding by Flask is left out: a body is either absent or a map from the keys read to string values. Non-string values (a list as `table_data`, a number as `model`) and JSON null are not modelled, and a non-JSON body, which makes `get_json` raise, is not modelled either.
- QuestionRoute.HandleQuestion: `include_debug` is modelled by its truthiness, as a boolean.
- QuestionRoute.HandleQuestion: a raising status check gives the 500 reply without the exception's text.
- Conversation.Respond: a raising status check gives a 500 reply with a fixed message in place of the exception's text. The session it created stays, empty, in the store.
- Retry.RetryOnFailure: `time.sleep(delay)` is counted, not performed. The wrapped functions in backend/app.py (`generate`, `analyze_chart`, `ask_chart`) catch every exception themselves, so the wrapper never retries them.
- ChartAnalyzer.PipeCells: its own contract states only that the cells are clean; which segments between bars are kept, stripped and in what order is stated by StrippedNonBlankOne and StrippedNonBlankAppend over the pieces of the split.
- ChartAnalyzer.StrippedNonBlank: its own contract states only the count bound and clean cells; the kept segments and their order are stated by StrippedNonBlankOne and StrippedNonBlankAppend.
- ChartAnalyzer.Candidates: its own contract states only the row shape; that blank and TITLE lines are skipped and every line with two or more tokens is kept, in order, is stated by CandidatesOne and CandidatesAppend.
- Concurrency: `app.run(debug=True)` (backend/app.py:536) serves requests on threads. Two `/api/generate` requests for one session can interleave their appends (backend/app.py:452-453), and two `/status` requests can both miss and both store (backend/app.py:119-129). The invariants proved here hold for requests handled one at a time.
- Retry.RetryOnFailure: the wrapper catches only `Exception` (backend/app.py:402). A `KeyboardInterrupt` or `SystemExit` escapes at once, with no retry and no sleep; the model has no such attempt outcome.
- The browser client is not modelled: it is a separate program that only sends requests to these routes.
- PyStr: whitespace, case mapping and digits are ASCII (plus Python's U+001C..U+001F separators for whitespace); Unicode case folding and Unicode digits are not modelled.
