# jamAI OCR post-processing, modelled in Dafny

The service takes the S3 key of a photographed chord sheet. It downloads the
image, OCRs it, and asks a language model to turn the text into a JSON dict of
song sections. Then it repairs the sections and answers with an HTTP-style
response. This project models and proves properties of two parts:

- `process_text` (`app/postprocess.py`), in `postprocess.dfy`. It covers:
  - reading the few-shot examples (each file is split on `===`);
  - cleaning a ```` ```json ```` fenced reply;
  - parsing the reply, or degrading to an error dict;
  - the in-place chord-block repair loop;
  - the scale-link loop, which stores the growing `s3_key_dict` as the
    section's `urls` after every scale;
  - the catch-all handler that turns any exception into an error dict.
- `lambda_handler` (`app/handler.py`), in `handler.dfy`. It covers body
  selection, key validation, and the `try`/`except`/`finally` with its
  400/500/200 responses and the cleanup of the downloaded file.

The Python semantics the code depends on are modelled separately:

- `outcomes.dfy`: exceptions as their `str(e)` text, and a `for` loop that may
  raise (`MapAll`).
- `py_text.dfy`: `str.strip`, `split`, `join`, `replace`, `lower` and the
  argument-less `split()`.
- `json_value.dfy`: the values `json.loads` builds, with dicts as
  insertion-ordered entries. It also models `len`, indexing, iteration, key
  lookup, `d[k] = v`, truth testing, and the CPython 3.11 exception messages
  for values of the wrong shape.

Each loop of the source is a `method` with a `for` loop. Each method is proved
equal to a specification function:

- `LoadExamples` computes `MapAll(ParseExample, files)`;
- `RepairChords` computes `RepairedChords`;
- `RepairSections` computes `RepairedSections`;
- `StoreScaleUrls` computes `WithUrls`;
- `EnrichSection` computes `EnrichedSection`;
- `EnrichSections` computes `EnrichedSections`;
- `ProcessText` computes `Processed`;
- `LambdaHandler` answers `Handled`, and its trace is `CallsMade`.

The lemmas then state what the source promises about those functions. The collaborators
of each part are parameters:

- of `process_text`: the example files, the language model, `json.loads` and
  the URL signer (`Postprocess.Environment`);
- of the handler: the download, its truth value and the OCR
  (`Handler.Services`).

The handler also returns a ghost trace of the calls it makes to these
collaborators.

## Model

| member | source | states |
|---|---|---|
| Outcomes.MapAll | app/postprocess.py:32-38 | A `for` loop whose body may raise succeeds exactly when every element succeeds. Its results are the per-element results in order. Otherwise it raises the exception of the first failing element, and every earlier element succeeded. |
| Outcomes.MapAllFirstFailure | app/postprocess.py:100-110 | When element `i` raises and every element before it succeeds, the loop raises exactly element `i`'s exception. |
| Outcomes.MapAllAllOk | app/postprocess.py:100-110 | When every element gives its result, the loop gives exactly those results, in order. |
| PyText.IsSpace | app/postprocess.py:83 | The characters Python's `str.isspace` accepts: what `strip()` and `split()` treat as whitespace. `Strip` and `WordsEmptyIff` state its use. |
| PyText.Strip | app/postprocess.py:83 | `strip()` returns a text with no whitespace at either end. Only whitespace is removed before and after it. |
| PyText.StripUnique | app/postprocess.py:83 | Any whitespace around an already stripped text is exactly what `strip()` removes. |
| PyText.StartsWith | app/postprocess.py:84 | `s.startswith(p)`: `s` begins with all of `p`, so `p` is no longer than `s`. `CleanResponse`, `UnfencedKept` and `PlainFenceKept` state its use. |
| PyText.Split | app/postprocess.py:34 | `split(sep)` always gives at least one piece. Which pieces it gives is stated by `JoinSplit`, `SplitSingleIff`, `SplitAtFirst` and `SplitWhole`. |
| PyText.JoinSplit | app/postprocess.py:34 | Joining the pieces of `split(sep)` with `sep` gives the text back, so splitting loses nothing. |
| PyText.SplitSingleIff | app/postprocess.py:34 | `split(sep)` yields a single piece exactly when the text does not contain `sep`. |
| PyText.SplitAtFirst | app/postprocess.py:34 | When no separator starts inside `k`, `split` on `k + sep + rest` gives `k` and then the pieces of `rest`. |
| PyText.SplitWhole | app/postprocess.py:34 | A text that does not contain the separator splits into just itself. |
| PyText.Join | app/postprocess.py:120 | `sep.join(parts)`. `JoinSplit` and `JoinSplitReplaces` state what joining split pieces gives. |
| PyText.Lower | app/postprocess.py:120 | `lower()` keeps the length. Each character becomes its lower-case form: `A` to `Z` become `a` to `z`, and every other character is kept. |
| PyText.RemoveAll | app/postprocess.py:86 | `replace(p, "")` never makes a text longer. `RemoveAllIsJoinSplit` and `RemoveAllFenceGone` state what it removes. |
| PyText.RemoveAllIsJoinSplit | app/postprocess.py:86 | Deleting every occurrence of `p` is the same as splitting at `p` and joining the pieces with nothing between them. |
| PyText.RemoveAllFenceGone | app/postprocess.py:86 | After `replace("```", "")` the text contains no ```` ``` ```` at all. |
| PyText.JoinSplitReplaces | app/postprocess.py:120 | Splitting on one character and joining with another replaces every occurrence of the first by the second. |
| PyText.Words | app/postprocess.py:135 | The argument-less `split()` gives only words, that is non-empty runs with no whitespace. `WordsOfWord`, `WordsAtSpace` and `WordsEmptyIff` state which words. |
| PyText.WordsEmptyIff | app/postprocess.py:135 | The argument-less `split()` yields no words exactly when the text is all whitespace. |
| PyText.WordsOfWord | app/postprocess.py:135 | A text that is one word splits into just that word. |
| PyText.WordsAtSpace | app/postprocess.py:135 | Whitespace ends a word: the words of `a + [c] + b`, for a whitespace `c`, are the words of `a` followed by the words of `b`. With `WordsOfWord` and `WordsEmptyIff` this fixes `split()`, and so `word_count`, on every text. |
| PyText.WordsOfJoin | app/postprocess.py:135 | Words joined by single spaces split back into the same words. |
| JsonValue.Truthy | app/handler.py:37 | `bool(v)`: `None`, `False`, zero and the empty string, list and dict are false. `TruthyIsNonEmpty` states the rule for values with a length. |
| JsonValue.TruthyIsNonEmpty | app/handler.py:37 | A string, list or dict is true exactly when its length is not zero. |
| JsonValue.Len | app/postprocess.py:103-107 | `len(v)` exists exactly for strings, lists and dicts. Any other value raises. |
| JsonValue.ItemAt | app/postprocess.py:104 | `v[i]` returns exactly when `v` is a string or a list and `i` is below its length. |
| JsonValue.Iterate | app/postprocess.py:116 | A value can be iterated exactly when it has a length, and the loop then visits that many values. |
| JsonValue.Subscript | app/handler.py:35 | `v[k]` returns exactly when `v` is a dict holding `k`, and then it gives the value stored under `k`. |
| JsonValue.HasNonNull | app/postprocess.py:101 | `isinstance(v, dict) and k in v and v[k] is not None`. `RepairedSection` and `EnrichedSection` state what each outcome leads to. |
| JsonValue.Lookup | app/postprocess.py:101 | `k in d` holds exactly when `k` is one of the dict's keys, and `d[k]` is the value stored with it. |
| JsonValue.DictSet | app/postprocess.py:124 | After `d[k] = v`, the keys are the old keys plus `k`, `d[k]` is `v`, and every other key's value is unchanged. |
| JsonValue.DictSetAppends | app/postprocess.py:124 | Assigning a key the dict does not hold appends one entry at the end and changes nothing before it. |
| JsonValue.DictSetReplaces | app/postprocess.py:126 | Assigning a key the dict already holds keeps its length and the key at every position. |
| JsonValue.DictSetKeySeq | app/postprocess.py:126 | Assigning an existing key keeps the key order; a new key goes last. |
| JsonValue.DictSetDistinct | app/postprocess.py:124 | Assigning a key never creates a second entry for a key. |
| JsonValue.DictSetTwice | app/postprocess.py:126 | Assigning `urls` again replaces the earlier assignment and leaves nothing else of it. |
| Postprocess.ParseExample | app/postprocess.py:34-38 | The only exception reading one example can raise is `IndexError` ("list index out of range"). |
| Postprocess.ParseExampleRaises | app/postprocess.py:34-37 | Reading an example file raises exactly when its stripped text contains no `===`. |
| Postprocess.ExampleParts | app/postprocess.py:34-38 | The example's input is the stripped text before the first `===`. Its output is the stripped text up to the second `===`, or to the end. Anything after a second `===` is ignored. The parts may contain `=` and `==`. They only may not hold a `===` that starts inside them. |
| Postprocess.LoadExamples | app/postprocess.py:32-38 | The loop over the example files gives one example per file, in listing order, or the first file's exception. |
| Postprocess.MissingSeparatorRaises | app/postprocess.py:32-38 | One example file without `===` is enough to make loading the examples raise `IndexError`. |
| Postprocess.MissingSeparatorFallsBack | app/postprocess.py:131-138 | Such a file turns the whole result of `process_text` into the error dict for `IndexError`. |
| Postprocess.CleanResponse | app/postprocess.py:83-86 | The cleaned reply never starts or ends with whitespace. A reply that does not start with ```` ```json ```` after stripping is just stripped. A fenced one has no ```` ``` ```` left anywhere. |
| Postprocess.FencedReply | app/postprocess.py:84-86 | A reply ```` ```json ```` + body + ```` ``` ```` whose body has no backtick cleans to the stripped body. |
| Postprocess.FencedLine | app/postprocess.py:83-86 | A fenced reply with the JSON on its own line cleans to exactly that JSON. |
| Postprocess.UnfencedKept | app/postprocess.py:83-84 | A reply with no whitespace at either end and no ```` ```json ```` fence is returned as it is. |
| Postprocess.PlainFenceKept | app/postprocess.py:83-84 | A reply ```` ``` ```` + body + ```` ``` ```` whose body does not start with `json` is not a ```` ```json ```` fence. So it is returned with its fences in place, whatever the body holds. |
| Postprocess.ParseOrDegrade | app/postprocess.py:88-92 | The parsed reply, or the degraded dict when `json.loads` raises. `UnparseableReplyDegrades` and `NotJsonExample` state the degraded case. |
| Postprocess.Degraded | app/postprocess.py:92 | `{"error": "Failed to parse response", "raw_response": <cleaned reply>}`. `DegradedPasses` proves that neither loop changes it. |
| Postprocess.UnparseableReplyDegrades | app/postprocess.py:88-92 | A reply `json.loads` rejects becomes `{"error": "Failed to parse response", "raw_response": <cleaned reply>}`, and both passes leave that dict unchanged. |
| Postprocess.DegradedPasses | app/postprocess.py:92-126 | Neither loop changes the degraded dict: both of its values are strings. |
| Postprocess.NotJsonExample | app/postprocess.py:88-92 | The reply "not json" becomes the degraded dict carrying "not json". |
| Postprocess.NonDictReplyFallsBack | app/postprocess.py:100 | A reply that parses to anything but a dict has no `items`, so the result is the error dict for that `AttributeError`. |
| Postprocess.RepairBlock | app/postprocess.py:104-108 | A list block of 3 gets its third element appended. A list block of 7 gets its seventh appended. Any other length is unchanged. Repair raises exactly when the block has no `len`, or is a non-list of length 3 or 7 (no `append`). |
| Postprocess.RepairBlockIdempotent | app/postprocess.py:104-108 | Repairing an already repaired block changes nothing: a block of 3 becomes 4 and a block of 7 becomes 8, neither of which is extended. |
| Postprocess.RepairedChords | app/postprocess.py:102-108 | A list of blocks repairs exactly when every block does, giving the repaired blocks in order. When it raises, it raises the exception of the first failing block, and every earlier block repaired. A string or an empty dict is returned unchanged. A non-empty dict raises `KeyError(0)`, whose text is "0", at `chords[0]`. A value with no `len` raises that `TypeError`. |
| Postprocess.RepairChords | app/postprocess.py:103-108 | The index loop that updates `chords` in place gives exactly `RepairedChords`. |
| Postprocess.RepairedSection | app/postprocess.py:101-108 | A section without non-null `chords` is unchanged. Otherwise repair succeeds exactly when its chords repair. The section's key order is kept, `chords` holds the repaired chords, and every other field is unchanged. |
| Postprocess.RepairedSections | app/postprocess.py:100-110 | The first pass keeps the section names in order and repairs each section. When it raises, it raises the exception of the first failing section, and every earlier section repaired. |
| Postprocess.RepairSections | app/postprocess.py:100-110 | The loop over the parsed reply gives exactly `RepairedSections`. |
| Postprocess.FirstRepairFailureFallsBack | app/postprocess.py:100-138 | When section `i` is the first whose chords fail to repair, `process_text` returns the error dict for that section's exception. |
| Postprocess.StorageKey | app/postprocess.py:118-122 | The S3 key under which a scale's file is stored. `StorageKeyOfScale`, `StorageKeyOneWord` and `StorageKeyExample` state its shape. |
| Postprocess.StorageKeyOfScale | app/postprocess.py:118-122 | For a scale "K rest", the storage key is `lower(rest with spaces as underscores) + "_" + K + ".txt"`. |
| Postprocess.StorageKeyOneWord | app/postprocess.py:118-122 | A one-word scale `K` has the storage key `_K.txt`. |
| Postprocess.StorageKeyExample | app/postprocess.py:118-122 | "C Major Pentatonic" is stored under `major_pentatonic_C.txt`. |
| Postprocess.ScaleName | app/postprocess.py:118 | `scale.split` works exactly on strings. Any other scale raises "'<type>' object has no attribute 'split'". |
| Postprocess.Link | app/postprocess.py:122-123 | The URL the signer gives for a scale's storage key, or `None` when signing fails. `ScaleUrlsLinks` states that every stored value is this link. |
| Postprocess.UrlsOf | app/postprocess.py:124 | `s3_key_dict` after assigning the given names in order. `UrlsOfKeys`, `UrlsOfDistinct` and `UrlsOfLookup` state its keys and values. |
| Postprocess.UrlsOfDistinct | app/postprocess.py:124 | `s3_key_dict` never holds a scale name twice. |
| Postprocess.UrlsOfKeys | app/postprocess.py:124 | The keys of `s3_key_dict` are exactly the scale names seen. |
| Postprocess.UrlsOfLookup | app/postprocess.py:123-124 | A name assigned into `s3_key_dict` holds its link, whatever came between; a name never assigned is absent. |
| Postprocess.LinkedStep | app/postprocess.py:124 | Assigning one more name its link extends the set of linked names by exactly that name. |
| Postprocess.ScaleUrls | app/postprocess.py:116-124 | A section's scales produce an `s3_key_dict` exactly when all of them are strings. Otherwise the loop raises on the first scale that is not a string. |
| Postprocess.ScaleUrlsLinks | app/postprocess.py:116-124 | The `s3_key_dict` of string scales has one entry per distinct scale name, each holding that name's link. |
| Postprocess.WithUrls | app/postprocess.py:116-126 | After the scale loop, a dict section is still a dict and every field except `urls` is unchanged. Empty scales store nothing; otherwise `urls` is the `s3_key_dict` or the loop's exception. |
| Postprocess.StoreScaleUrls | app/postprocess.py:116-126 | The loop that grows `s3_key_dict` and stores it as `urls` after every scale gives exactly `WithUrls`. |
| Postprocess.EnrichedSection | app/postprocess.py:114-126 | A section without non-null `scales` is unchanged. An enriched section changes no field except `urls`. |
| Postprocess.EnrichedSectionLinks | app/postprocess.py:114-126 | A section with scales is enriched exactly when its scales are iterable and all of them are strings. Empty scales leave it unchanged. Non-empty scales leave `urls` as a dict linking each distinct scale name. |
| Postprocess.TwoScalesLinked | app/postprocess.py:114-126 | A section with scales `[a, b]` gets a `urls` dict keyed by exactly `{a, b}`. |
| Postprocess.EnrichedSections | app/postprocess.py:112-126 | The second pass keeps the section names in order and enriches each section. When it raises, it raises the exception of the first failing section, and every earlier section was enriched. |
| Postprocess.EnrichSection | app/postprocess.py:114-126 | Testing for non-null `scales`, iterating them and running the scale loop gives exactly `EnrichedSection`. |
| Postprocess.EnrichSections | app/postprocess.py:112-126 | The loop over the sections gives exactly `EnrichedSections`. |
| Postprocess.FirstEnrichFailureFallsBack | app/postprocess.py:112-138 | When the chords repair and section `i` is the first whose scales fail, `process_text` returns the error dict for that section's exception. |
| Postprocess.PlainSectionsUntouched | app/postprocess.py:100-126 | Sections that are not dicts pass through both loops unchanged. |
| Postprocess.SuccessKeepsSections | app/postprocess.py:99-129 | When both passes succeed, the result keeps the parsed section names in order. Non-dict sections are unchanged. A dict section keeps every field except `chords` and `urls`, and its non-null `chords` are the repaired ones. |
| Postprocess.Fallback | app/postprocess.py:133-138 | The error dict of the catch-all handler. `MissingSeparatorFallsBack`, `NonDictReplyFallsBack`, `FirstRepairFailureFallsBack` and `FirstEnrichFailureFallsBack` state when it is returned. |
| Postprocess.Passes | app/postprocess.py:99-138 | After parsing, the result is always a dict. |
| Postprocess.Answer | app/postprocess.py:81-129 | Once the model has replied, cleaning, parsing and both passes always give a dict. |
| Postprocess.Processed | app/postprocess.py:28-138 | `process_text` always returns a dict: it never raises. |
| Postprocess.ProcessText | app/postprocess.py:28-138 | Running the steps one after another gives exactly `Processed`. |
| Handler.SelectBody | app/handler.py:30-33 | The request body. `StringBodyIsParsed`, `BodyIsRequest`, `EventIsRequest` and `RequestErrorAnswered` state its four cases. |
| Handler.RequestKey | app/handler.py:35 | `body["key"]`. `AbsentKeyFails` and `FalsyKeyRefused` state what a missing or falsy key gives. |
| Handler.ServerError | app/handler.py:64-74 | The 500 response for an exception. `OutcomeOfRequest` states that every 500 response is one. |
| Handler.Handled | app/handler.py:27-78 | The handler's response. `StatusCodes`, `OutcomeOfRequest` and the `...Answered` lemmas state it. |
| Handler.Attempted | app/handler.py:35-62 | The calls the `try` block makes, up to the first that raises. `CallOrder` states their order. |
| Handler.SavedPath | app/handler.py:46 | `local_image_path` when the `finally` block runs. `CleanupOnce` states when it leads to a cleanup. |
| Handler.CallsMade | app/handler.py:35-78 | The calls the handler makes, with the cleanup of the `finally` block. `CleanupOnce` and `CallOrder` state them. |
| Handler.Success | app/handler.py:52-62 | The 200 response carries what `process_text` returns for the OCR text, with the three CORS headers. |
| Handler.LambdaHandler | app/handler.py:14-78 | The handler's response is `Handled`, and the calls it makes to its collaborators are `CallsMade`. |
| Handler.StatusCodes | app/handler.py:35-74 | The status is 200, 400 or 500. It is 400 exactly when the key is present but falsy. Only the 400 response lacks headers; the others carry the CORS headers. |
| Handler.FalsyKeyRefused | app/handler.py:37-41 | A present but falsy key gives `{"error": "Missing required parameters: key"}` with status 400 before any collaborator is called. |
| Handler.AbsentKeyFails | app/handler.py:35 | A body without `key` raises `KeyError`, giving a 500 response whose error is `'key'`; nothing is downloaded. |
| Handler.EventIsRequest | app/handler.py:30-33 | An event without `body` is itself the request: its own `key` is downloaded. |
| Handler.StringBodyIsParsed | app/handler.py:30-31 | A string body is parsed. The parsed dict is the request, and its key is downloaded first. |
| Handler.BodyIsRequest | app/handler.py:32-33 | A body that is not a string is used as it is. When it is a dict, its key is downloaded first. |
| Handler.KeyIsDownloaded | app/handler.py:35-46 | A truthy request key is the first thing downloaded. |
| Handler.OutcomeOfRequest | app/handler.py:46-74 | Status 500 is exactly the error response for some exception text. Status 200 is exactly the case where the OCR text reached `process_text`, and its body is what `process_text` made of that text. |
| Handler.RequestErrorAnswered | app/handler.py:30-74 | An exception from `json.loads` of the body or from `body["key"]` gives the 500 response whose error is that exception's text. |
| Handler.DownloadErrorAnswered | app/handler.py:46-74 | An exception from downloading a truthy key gives the 500 response whose error is that exception's text. |
| Handler.OcrErrorAnswered | app/handler.py:49-74 | An exception from the OCR of the downloaded file gives the 500 response whose error is that exception's text. |
| Handler.TextAnswered | app/handler.py:46-62 | When the download and the OCR both return, the answer is 200 with the CORS headers and what `process_text` made of the OCR text. |
| Handler.CleanupOnce | app/handler.py:75-78 | The file is cleaned up once, as the last call, exactly when the download returned a true value, and never otherwise. |
| Handler.CallOrder | app/handler.py:46-52 | The calls come in the order download, OCR, processing. The download is of the request's key. OCR runs only after a download that returned, and it is given the downloaded path. Processing gets exactly the OCR text. |

## Left out

- The prompt and the language model (lines 40-75 of `app/postprocess.py`):
  - the template file, the few-shot prompt and the `ChatOpenAI` call are one
    parameter, `Environment.complete`;
  - it takes the examples and the text and returns the reply or an exception;
  - a missing template file is one of its exceptions.
- Directory listing and file reading (lines 30-33): the contents of the example
  files are given in listing order as `Environment.exampleFiles`; `glob` order
  is not modelled.
- Token counting with `tiktoken` (lines 95-97): its count only feeds a log
  line. Its exceptions are not modelled. Loading the encoding can fail, and
  `encode` raises `ValueError` on a text holding a special token such as
  `<|endoftext|>`. Either would turn the result into the fallback dict. The
  model never takes that path.
- Logging, and the environment variables naming the buckets: they only feed
  logs and the collaborators. The signer's bucket argument is fixed inside the
  `sign` parameter.
- `elif ... chords is None` (lines 109-110): it only logs.
- `json.loads`: its grammar and error texts are the parameter
  `Environment.loads`. The parsed value is the `Json` datatype.
- Postprocess.ParseOrDegrade: every exception from `loads` degrades to the
  error dict. Line 89 catches only `json.JSONDecodeError`. A `RecursionError`
  on deeply nested input would instead reach the outer fallback (line 131).
  So would the `ValueError` for an integer of more than 4300 digits. These
  are not told apart.
- Postprocess.ScaleUrls: the signer `Environment.sign` cannot raise. A failed
  signing is `None`, as a `ClientError` gives (`app/s3_utils.py`,
  lines 105-107). The other botocore exceptions would propagate into
  `process_text`'s fallback dict. They are not modelled.
- `json.dumps`: the response body is the value to be serialised, not its text.
  Every value in the model is serialisable.
- The S3 download, the deletion of the local file, the presigned-URL call and
  the Tesseract OCR (`app/s3_utils.py`, `app/tesseract_engine.py`,
  `app/image_utils.py`): these are `Handler.Services` and `Environment.sign`.
  Deletion is a `Cleanup` entry in the trace and never raises, because
  `delete_local_file` catches its own exceptions.
- The language model's reply, the OCR text and the example files are text;
  their encoding into bytes is not modelled.
- `Postprocess.Processed`: the order in which the signer is called is not
  recorded. Only the URLs it returns are stored.
- In-place mutation: `json.loads` builds a fresh tree with no shared parts, so
  the loops update values held in local variables. Aliasing between sections
  cannot arise and is not modelled.
- PyText.Lower: only ASCII letters are lower-cased, not the whole of Unicode.
- JsonValue.MissingKeyMessage: the `KeyError` text is the key in single
  quotes. Python's `repr` escaping of quotes and backslashes inside the key is
  not modelled.
- JsonValue: exception texts follow CPython 3.11 and later; floats are exact
  reals.
- Handler.SelectBody and the rest of the handler: the event is a JSON-like
  dict, as API Gateway and the test console deliver it; the `context`
  argument is unused.
