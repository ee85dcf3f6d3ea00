# Gemini-Web2API gateway core in Dafny

This project models the deterministic core of the Gemini-Web2API gateway. The
gateway accepts OpenAI-style and Anthropic-style chat requests and relays them
to the Gemini web front end. It uses a pool of browser-cookie accounts, and it
turns the upstream answer back into the client's format.

The model is functional: a small `Json` datatype, Go strings as `seq<char>` of
runes, and pure functions that return values or event lists. The exchanges with
the outside world are parameters: status codes and bodies, the clock, random
draws, uploads, image fetches, file contents and, for the Chrome fetcher,
goroutine completion order.

The modules follow the source tree:

- `Pool`: the round-robin account pool (internal/balancer/balancer.go).
- `Reconcile` and `Retry`: the account reload pass with its bounded
  retries (cmd/server/main.go), and the fetcher's retries
  (internal/browser/chrome_fetcher.go).
- `Mapping`: the `MODEL_MAPPING` parser (internal/config/mapping.go).
- `EnvFile`, `Cookie`, `SaveOrdered` and `ChromeFetcher`: `.env` reading
  and writing, account ids, and the Chrome profile cookie fetcher
  (internal/browser/).
- `Client` and `Payload`: the session client's landing-page parsing, its
  request counter and call shape, and the positional generate payload
  (internal/gemini/).
- `GeminiDecode` and `Cleanup`: the response-frame decoder, delta tracking,
  text cleanup and the image-URL scans (internal/adapter/handler.go and
  image_handler.go).
- `OpenAIHandler`, `ClaudeHandler` and `ImageHandler`: the HTTP handlers'
  decisions (internal/adapter/).
- `ClaudeTypes`, `ClaudeRequest`, `ClaudeResponse` and `ClaudeStream`: the
  Claude request and response transcoders and the SSE state machine
  (internal/claude/).
- `PyAdapter`: the prompt assembly and content composition of the legacy
  Python adapter (openai_adapter.py).
- `Json`, `JsonText`, `Text`, `Seqs` and `Wrappers`: shared helpers. They
  provide a JSON tree with gjson-style path lookup, a JSON text parser and
  serialiser with a round-trip proof, Go's string functions, and
  `Option`/`Result`.

## Where the code is followed

- The frame decoders read candidates at inner index 4
  (internal/adapter/handler.go:314). A frame that carries them at index 3
  yields nothing.
- The `else if` branches at internal/adapter/handler.go:328 and :338 can never
  fire. `GeminiDecode.Advance` states that a delta exists exactly when the new
  text is longer.
- One text tracker and one thought tracker are shared by every candidate and
  every line of a response (internal/adapter/handler.go:292).
- Unescaping is applied to each text delta, not to the whole text, and never to
  thoughts (internal/adapter/handler.go:347-352).
- `StreamProcessor` decodes the inner payload into an object. An inner array
  is never processed (internal/claude/streaming.go:227-243).
- `TransformResponse` maps `MAX_TOKENS` to `end_turn`, while `MapFinishReason`
  maps it to `max_tokens` (internal/claude/response.go:28 and 132).
- The web-search fallback at internal/claude/request.go:98-102 is unreachable,
  because `buildTools` already returns the search tool in that case.
- Deltas are measured in runes. A Dafny `char` stands for one rune.

## Model

| member | source | states |
|---|---|---|
| Pool.Clear | internal/balancer/balancer.go:26-31 | the cleared pool has no entries and its cursor is 0 |
| Pool.Add | internal/balancer/balancer.go:33-40 | exactly one entry is appended at the end; the earlier entries keep their order and the cursor does not move |
| Pool.Size | internal/balancer/balancer.go:53-57 | the size is the number of entries |
| Pool.Next | internal/balancer/balancer.go:42-51 | an empty pool yields no account and keeps its state; otherwise the entry at cursor mod size is returned, the entries are unchanged, and the 64-bit cursor advances by one, wrapping to 0 |
| Pool.NextRunIsRotation | internal/balancer/balancer.go:42-51 | while the cursor does not wrap, consecutive calls visit the positions of a rotation starting at cursor mod size |
| Pool.NextIsFair | internal/balancer/balancer.go:42-51 | over q full laps plus r more calls, every entry is chosen q or q+1 times, and exactly q times when r is 0 |
| Pool.FairRun | internal/balancer/balancer.go:42-51 | the exact count: an entry gets the extra pick iff its distance from the starting position is below r |
| Pool.WrapRepeatsPosition | internal/balancer/balancer.go:42-51 | with 3 entries and the cursor at the last 64-bit value, the next two calls both pick position 0, so fairness only holds without a wrap |
| Mapping.PairEntry | internal/config/mapping.go:29-42 | a pair that is read has a non-empty, trimmed source and target |
| Mapping.LoadModelMapping | internal/config/mapping.go:16-45 | an empty mapping string gives an empty table |
| Mapping.MappingWellFormed | internal/config/mapping.go:27-42 | every source and target in the table is non-empty and trimmed; a source holds no `:` or `,`, and a target holds no `,` |
| Mapping.PairEntryChars | internal/config/mapping.go:34-37 | the split is at the first `:`, so the source holds none, and both sides come from the piece's own characters |
| Mapping.PairRoundTrip | internal/config/mapping.go:29-42 | a well-formed pair written as `source:target` reads back as itself |
| Mapping.FormatRoundTrip | internal/config/mapping.go:27-43 | a comma-joined list of well-formed pairs reads back as the table that assigns them in order |
| Mapping.LoadPieces | internal/config/mapping.go:27-42 | a non-empty string is read piece by piece, split on `,` |
| Mapping.LastPairWins | internal/config/mapping.go:39 | when a source appears several times, the last pair decides its target |
| Mapping.UnmappedPassesThrough | internal/config/mapping.go:57-60 | a model that no pair names maps to itself |
| Mapping.SkippedPieceChangesNothing | internal/config/mapping.go:29-42 | a blank or malformed piece inserted anywhere leaves the table unchanged |
| EnvFile.ToMap | internal/browser/cookie.go:122-133 | the keys of the map are exactly the keys some line defines |
| EnvFile.ToMapLast | internal/browser/cookie.go:122-133 | the last line that defines a key decides its value |
| EnvFile.ToMapValue | internal/browser/cookie.go:122-133 | every value in the map comes from a line that defines its key |
| EnvFile.EnvEntry | internal/browser/cookie.go:124-132 | a pair is read only from a trimmed line that is not blank, does not start with `#` and holds `=`; the key holds no `=` |
| EnvFile.OldLines | internal/browser/save_ordered.go:10-15 | the old file splits into lines that hold no newline |
| EnvFile.Finish | internal/browser/save_ordered.go:42-45 | the written text ends with a newline |
| EnvFile.FinishLines | internal/browser/save_ordered.go:42-45 | reading the written text back gives the lines, followed only by empty lines |
| EnvFile.KeyLineEntry | internal/browser/save_ordered.go:38 | a written `KEY=value` line reads back as that key and value |
| SaveOrdered.KeptLines | internal/browser/save_ordered.go:19-34 | no kept line defines a `__Secure-1PSID` key |
| SaveOrdered.KeptLinesKeepOthers | internal/browser/save_ordered.go:19-34 | every other line of the old file is kept |
| SaveOrdered.SavedKeys | internal/browser/save_ordered.go:36-40 | every appended key is listed and has a cookie, and every listed key that has a cookie is appended |
| SaveOrdered.AppendedLinesWin | internal/browser/save_ordered.go:36-40 | after the kept lines, the appended lines decide the value of every key they write |
| SaveOrdered.SaveWithOrder | internal/browser/save_ordered.go:9-45 | the saved text ends with a newline |
| SaveOrdered.SavedLines | internal/browser/save_ordered.go:19-45 | reading the saved file gives the map of the kept lines followed by the cookie lines |
| SaveOrdered.SavedCookiesReadBack | internal/browser/save_ordered.go:36-45 | every listed cookie reads back from the saved file with its value |
| SaveOrdered.NoStaleSessionKeys | internal/browser/save_ordered.go:25-40 | every session key in the saved file is a listed key that has a cookie, so stale accounts disappear |
| Cookie.Suffixes | internal/browser/cookie.go:140-145 | the suffixes are exactly those of the `__Secure-1PSID_` keys in the file |
| Cookie.DetectedIDs | internal/browser/cookie.go:135-145 | the default account is detected iff the default session cookie is set or a suffixed session key exists |
| Cookie.DetectedWhenSet | internal/browser/cookie.go:135-145 | every account whose session cookie is set is detected |
| Cookie.LoadAccounts | internal/browser/cookie.go:152-185 | the accounts and their ids stay paired, and there are at most as many as ids tried |
| Cookie.LoadAccountsFacts | internal/browser/cookie.go:152-185 | each loaded account holds its own id's two cookies; a tried id is loaded iff its session cookie is set; no other id is loaded |
| Cookie.LoadMultiCookies | internal/browser/cookie.go:113-192 | an unreadable file is an error; otherwise the result is Ok iff some tried id has its session cookie set, and then every account holds its id's cookies |
| Cookie.AutoDetectFindsEveryAccount | internal/browser/cookie.go:135-185 | with auto-detection, an account is loaded iff its session cookie is set |
| Cookie.NonBlank | internal/browser/cookie.go:203-209 | the kept ids are non-empty trimmed pieces of the input |
| Cookie.ParseAccountIDs | internal/browser/cookie.go:194-215 | there is always at least one id; the result is `[""]` or a list of non-empty trimmed ids without commas |
| Cookie.ParseJoinedIDs | internal/browser/cookie.go:194-215 | a comma-joined list of well-formed ids reads back as itself |
| Cookie.ParseBracketedIDs | internal/browser/cookie.go:194-215 | the same list in brackets reads back as itself |
| Cookie.LineKey | internal/browser/cookie.go:245-247 | the key of a rewritten line is trimmed and holds no `=` |
| Cookie.SaveToEnvAsWritten | internal/browser/cookie.go:217-272 | `saveToEnv` as written, with `order` visiting every key of the key map as `range` does: the text ends with a newline, and when the cookies are safe to write every cookie reads back from the saved file with its value, each session cookie also through the `LoadCookies` reader |
| Cookie.CommentCopiedOnSave | internal/browser/cookie.go:222-230 | as written, a file holding only `#KEY=value` gains another copy of that comment line on a save with nothing to add |
| Cookie.AsWrittenReadsComment | internal/browser/cookie.go:222-230 | as written, the first pass reads a commented-out pair as a live one |
| Cookie.SaveEnvMap | internal/browser/cookie.go:222-234 | in the corrected first pass, every new cookie overrides the file's value |
| Cookie.SaveToEnv | internal/browser/cookie.go:217-272 | corrected `saveToEnv`, with the same visiting order: the text ends with a newline, and safe cookies read back from the saved file with their values, session cookies also through the `LoadCookies` reader |
| Cookie.CommentKeptOnSave | internal/browser/cookie.go:239-268 | corrected, a file holding only a comment line is saved unchanged |
| Cookie.CorrectedSkipsComment | internal/browser/cookie.go:239-244 | the corrected first pass reads nothing from a comment line |
| Cookie.SaveAppendsOnlyNewCookies | internal/browser/cookie.go:259-263 | corrected, an appended key is a new cookie that no line of the file defines |
| Cookie.FileKeysProcessed | internal/browser/cookie.go:239-257 | corrected, every key the file defines is rewritten in place |
| Cookie.AppendedKeys | internal/browser/cookie.go:259-263 | every appended key is a key of the map that no line rewrote and that `order` lists; every such listed key is appended |
| Cookie.AppendedKeysExact | internal/browser/cookie.go:259-263 | when `order` visits every key of the map once, the appended keys are exactly the keys no line rewrote, each once |
| Cookie.SaveWithSaves | internal/browser/cookie.go:231-272 | after the cookies are laid over the map, the rewritten and appended lines read back as every cookie with its value |
| Cookie.EnvCookieEntry | internal/browser/cookie.go:56-63 | only the two session cookies are read from `.env` |
| Cookie.EnvCookies | internal/browser/cookie.go:54-63 | the `.env` map holds only the two session cookies |
| Cookie.BrowserCookies | internal/browser/cookie.go:96-102 | a name is in the map exactly when some cookie carries it, is one of the two session names and has a domain containing `google.com`; its value is that of the last such cookie |
| Cookie.Merged | internal/browser/cookie.go:52-102 | the merged map holds only the two session cookies |
| Cookie.LoadCookies | internal/browser/cookie.go:51-111 | the `.env` session cookie wins when set, and nothing is saved; otherwise the result is Ok iff the browser gives a session cookie, and then the merged map is saved with `saveToEnv` as written; when the merged cookies are safe to write, the saved file gives the session cookie back, so the next load takes the `.env` branch |
| Cookie.LoadCookiesIntended | internal/browser/cookie.go:51-111 | the same choice, with the merged map saved by the corrected `saveToEnv`; the saved file again gives the session cookie back |
| ChromeFetcher.DisplayName | internal/browser/chrome_fetcher.go:71-74 | a non-empty `Local State` name is used as it is, and a non-empty directory never gets an empty name |
| ChromeFetcher.Candidates | internal/browser/chrome_fetcher.go:62-82 | exactly the profile directories that hold a cookie store are listed, each with a non-empty display name |
| ChromeFetcher.BeforeTransitive | internal/browser/chrome_fetcher.go:84-92 | the profile order is transitive |
| ChromeFetcher.BeforeTotal | internal/browser/chrome_fetcher.go:84-92 | any two distinct profiles are ordered |
| ChromeFetcher.BeforeAsymmetric | internal/browser/chrome_fetcher.go:84-92 | two distinct profiles are never ordered both ways |
| ChromeFetcher.SortProfiles | internal/browser/chrome_fetcher.go:84-92 | sorting permutes the profiles |
| ChromeFetcher.SortProfilesSorted | internal/browser/chrome_fetcher.go:84-92 | profiles with distinct names come out sorted |
| ChromeFetcher.ListedProfiles | internal/browser/chrome_fetcher.go:62-94 | the listing is sorted, is a permutation of the candidates, and holds every profile directory with its display name |
| ChromeFetcher.DefaultFirst | internal/browser/chrome_fetcher.go:84-92 | in a sorted listing only the first profile may be `Default` |
| ChromeFetcher.TokenIndex | internal/browser/chrome_fetcher.go:265-273 | a valid token names an index inside the list |
| ChromeFetcher.TokenIndices | internal/browser/chrome_fetcher.go:265-274 | every selected index is inside the list, one per valid token at most |
| ChromeFetcher.SelectIndices | internal/browser/chrome_fetcher.go:259-275 | `ALL` in any case selects every index in order; nothing outside the list is selected |
| ChromeFetcher.SelectProfiles | internal/browser/chrome_fetcher.go:259-279 | the selection is an error iff no index was selected; a selection holds only listed profiles |
| ChromeFetcher.Pick | internal/browser/chrome_fetcher.go:273 | the picked profiles are those at the selected indices, in the same order |
| ChromeFetcher.NumbersSelect | internal/browser/chrome_fetcher.go:265-274 | typed 1-based numbers select exactly those profiles, in the typed order, duplicates kept |
| ChromeFetcher.InvalidTokenSkipped | internal/browser/chrome_fetcher.go:269-272 | an invalid token anywhere in the input changes nothing |
| ChromeFetcher.FetchResult | internal/browser/chrome_fetcher.go:207-223 | the fetch succeeds iff the browser gives a session cookie, and then it returns exactly the browser's session-cookie map |
| ChromeFetcher.FetchedCookiesShape | internal/browser/chrome_fetcher.go:207-223 | a successful attempt holds a session cookie and nothing but the two session cookies |
| ChromeFetcher.Place | internal/browser/chrome_fetcher.go:309-313 | placing results keeps one slot per profile |
| ChromeFetcher.PlaceLast | internal/browser/chrome_fetcher.go:309-313 | a slot holds the last result that arrived for it |
| ChromeFetcher.PlacedByIndex | internal/browser/chrome_fetcher.go:309-313 | whatever the arrival order, each slot ends up holding its own profile's result |
| ChromeFetcher.Suffix | internal/browser/chrome_fetcher.go:323-326 | the suffix is empty iff the profile is `Default`; otherwise it starts with `_` and holds no space |
| ChromeFetcher.SuffixKeys | internal/browser/chrome_fetcher.go:323-328 | the suffixed cookie names are the keys the account loader looks up for that account id |
| ChromeFetcher.OrderedKeys | internal/browser/chrome_fetcher.go:337-353 | the ordered keys are exactly the keys the successful profiles define |
| ChromeFetcher.OrderedCookies | internal/browser/chrome_fetcher.go:337-353 | the cookie map is the one all the successful profiles build in order |
| ChromeFetcher.Collect | internal/browser/chrome_fetcher.go:333-355 | on success, the saved text is the ordered save of the ordered keys and cookies |
| ChromeFetcher.CollectFailsWithoutSuccess | internal/browser/chrome_fetcher.go:315-335 | collecting fails iff every profile's fetch failed |
| ChromeFetcher.CollectErr | internal/browser/chrome_fetcher.go:315-335 | collecting fails iff no cookie was gathered from any profile |
| ChromeFetcher.EntryOfResult | internal/browser/chrome_fetcher.go:315-331 | a profile contributes its two cookie entries iff its fetch succeeded |
| ChromeFetcher.RunFetchCookies | internal/browser/chrome_fetcher.go:231-358 | no profiles, or an empty selection, is an error |
| ChromeFetcher.ProfileCookies | internal/browser/chrome_fetcher.go:315-331 | a successful profile's two cookies appear under its suffixed names |
| ChromeFetcher.SavedProfileReadsBack | internal/browser/chrome_fetcher.go:315-355 | reading the saved file gives each successful profile's two cookies under its account's keys |
| Retry.From | internal/browser/chrome_fetcher.go:296-304 | the loop stops at the first success, every earlier attempt failed, and a failure comes only after the last allowed attempt |
| Retry.Attempts | internal/browser/chrome_fetcher.go:296-304 | at most 3 attempts: the first success, or the third failure |
| Retry.AttemptsFindFirstSuccess | cmd/server/main.go:144-184 | when attempt k is the first success, the loop returns it |
| Client.FindSubmatch | internal/gemini/client.go:91-92 | no capture iff the pattern matches nowhere; a capture holds no quote and no newline |
| Client.FindPlanted | internal/gemini/client.go:91-96 | a value after the first occurrence of a marker is read back |
| Client.InitReadsToken | internal/gemini/client.go:91-96 | the SNlM0e token planted in a page is the token `Init` reads |
| Client.ChooseBL | internal/gemini/client.go:98-113 | the label is never empty: the `"bl"` capture, else the `data-bl` capture, else the current label, and the fixed fallback whenever the chosen one is empty |
| Client.Init | internal/gemini/client.go:73-124 | a non-200 page is an error; otherwise Ok iff the SNlM0e token is found; the token, the build label and the counter are set; FSID is set from the session-id pattern as written |
| Client.InitTakesWildcard | internal/gemini/client.go:117-121 | on a page holding `"fXsid":"v"`, the source's `Init` sets FSID to `v`, while the intended one keeps the old id |
| Client.FSidWildcardAsWritten | internal/gemini/client.go:117-121 | the unescaped dot matches `"fXsid":"`; the literal marker does not |
| Client.InitIntended | internal/gemini/client.go:73-124 | corrected `Init`: the same decisions, with FSID set only from the literal `"f.sid":"` marker |
| Client.IntendedSidNeedsLiteral | internal/gemini/client.go:117-121 | the corrected `Init` changes FSID only when the page holds the literal `"f.sid":"` |
| Client.FSidMarkerIsLiteral | internal/gemini/client.go:117-121 | a match of the literal marker is the text `"f.sid":"` |
| Client.ModelHeader | internal/gemini/client.go:152-157 | a known model gets its own header value; any other gets the gemini-2.5-flash value |
| Client.Query | internal/gemini/client.go:137-144 | `f.sid` is sent iff FSID is non-empty, and the parameters are in sorted order |
| Client.StreamGenerateContent | internal/gemini/client.go:126-169 | the counter advances by one whatever the outcome; the form carries the payload built with the old value; `_reqid` carries the new one; the body comes back iff the status is 200 |
| Client.CounterCountsCalls | internal/gemini/client.go:127-128 | after n calls the counter has moved by exactly n |
| Payload.ImagesArray | internal/gemini/payload.go:37-50 | one image entry per file, in file order |
| Payload.DecodeImagesOfArray | internal/gemini/payload.go:37-50 | the image list decodes back to the files |
| Payload.DecodeInnerArray | internal/gemini/payload.go:52-79 | the inner array decodes back to the prompt, files and metadata |
| Payload.PayloadRoundTrip | internal/gemini/payload.go:36-85 | the payload text parses and decodes back to the prompt, files and metadata it was built from |
| Payload.PayloadIgnoresReqID | internal/gemini/payload.go:36-85 | the payload does not depend on the request id |
| Payload.PayloadInjective | internal/gemini/payload.go:36-85 | distinct requests give distinct payloads |
| Payload.GenerateReqID | internal/gemini/payload.go:87-90 | the id is 100000 plus the random draw, so it lies in 100000..199999 |
| GeminiDecode.ScanLines | internal/adapter/handler.go:288-294 | the body is split into lines that hold no newline |
| GeminiDecode.ScanTerminated | internal/adapter/handler.go:288-294 | plain lines, each followed by a newline, scan back as exactly those lines |
| GeminiDecode.LineParts | internal/adapter/handler.go:295-304 | the parts of a line are exactly the elements of the array its cleaned text parses to, and there are none when it parses to anything else |
| GeminiDecode.PartInner | internal/adapter/handler.go:307-312 | a part yields an inner payload only when its element 2 is a non-empty string |
| GeminiDecode.Advance | internal/adapter/handler.go:323-341 | a delta is the suffix past the remembered length, and the memory moves on, exactly when the new text is longer; otherwise there is no delta and the memory stays |
| GeminiDecode.StepsAreTwoTrackers | internal/adapter/handler.go:292-341 | text and thoughts are tracked independently: each column is what a lone tracker would produce |
| GeminiDecode.ChainedDeltasRebuildFrame | internal/adapter/handler.go:323-331 | when each frame extends the last, the memory plus the deltas rebuild the last frame |
| GeminiDecode.RepeatedFrameIsSilent | internal/adapter/handler.go:323-341 | presenting the same frame again yields no delta |
| GeminiDecode.SharedTrackerHidesShorterCandidate | internal/adapter/handler.go:292-331 | because the tracker is shared, a second candidate that is not longer than the first yields no text |
| GeminiDecode.ChunkOf | internal/adapter/handler.go:343-356 | a chunk is delivered iff the cleaned text or the thought is non-empty; only the text is cleaned |
| GeminiDecode.Emitted | internal/adapter/handler.go:343-356 | no delivered chunk is empty in both fields |
| GeminiDecode.Decode | internal/adapter/handler.go:287-363 | `onChunk` is never called with both text and thought empty; a body written one frame per line yields the chunks the shared tracker makes of those frames, in order |
| GeminiDecode.FramedBodyFrames | internal/adapter/handler.go:293-318 | a body written one frame per line, each line an XSSI-free array whose part carries the candidate in its inner payload, reads back as those frames |
| GeminiDecode.EmittedKeepsEverything | internal/adapter/handler.go:343-356 | the delivered thoughts concatenate to all thought deltas, and the delivered texts to all cleaned text deltas |
| GeminiDecode.GrowingThoughtsArriveWhole | internal/adapter/handler.go:333-356 | thoughts that grow frame by frame are delivered in full |
| GeminiDecode.GrowingTextArrivesInPieces | internal/adapter/handler.go:323-331 | text that grows frame by frame yields deltas that concatenate to the last frame's text |
| GeminiDecode.PieceCleanupDiffersFromWhole | internal/adapter/handler.go:347-352 | cleaning each delta differs from cleaning the whole text when an escape is split across deltas |
| GeminiDecode.BodyIndex | internal/adapter/handler.go:595-606 | the first part whose payload has a body, and no earlier one |
| GeminiDecode.AcceptedURLs | internal/adapter/handler.go:623-629 | every kept URL is accepted, and every accepted URL is kept |
| GeminiDecode.FirstNonEmpty | internal/adapter/handler.go:612-634 | the scan stops at the first part that gives anything; empty iff no part gives anything |
| GeminiDecode.ExtractImageURLs | internal/adapter/handler.go:568-637 | every URL is accepted; no body part gives none; otherwise the URLs come from the first part after the body that gives any |
| GeminiDecode.FullSize | internal/adapter/image_handler.go:222-225 | a URL that already holds `=s` is unchanged, and any other URL gets `=s2048` appended |
| GeminiDecode.ItemsOf | internal/adapter/image_handler.go:212-238 | the URL format gives one full-size URL per image; any other format gives at most one base64 item per image, each with non-empty data |
| GeminiDecode.ExtractImages | internal/adapter/image_handler.go:146-246 | no body part gives no images |
| GeminiDecode.UrlFormatMatchesChatReader | internal/adapter/image_handler.go:180-243 | the image endpoint's URL format returns the chat reader's URLs, each made full size |
| GeminiDecode.ScanCandidate | internal/adapter/handler.go:494-527 | the image URL found, if any, is an accepted one |
| GeminiDecode.CandidateChunk | internal/adapter/handler.go:480-529 | thoughts are passed whole; without an image list the chunk is the cleaned text with no URL |
| GeminiDecode.DecodeWithImages | internal/adapter/handler.go:435-531 | every URL is accepted; with no body part there are no chunks, otherwise one per candidate of the body part |
| Cleanup.PassRemovesOneMark | internal/adapter/handler.go:347-351 | each replacement pass undoes the escaping of its own mark |
| Cleanup.UnescapeEscape | internal/adapter/handler.go:347-351 | unescaping undoes escaping for text without backslashes |
| Cleanup.UnescapeWithoutBackslash | internal/adapter/handler.go:347-351 | text without a backslash is unchanged |
| Cleanup.FilterImagePlaceholders | internal/adapter/handler.go:431-433 | filtering never lengthens the text |
| Cleanup.FilterWithoutPlaceholder | internal/adapter/handler.go:431-433 | text without the placeholder path is unchanged |
| Cleanup.FilterDropsPlaceholder | internal/adapter/handler.go:431-433 | a placeholder link with its surrounding whitespace and digits is removed |
| Cleanup.FilterShort | internal/adapter/handler.go:431-433 | text shorter than the placeholder path is unchanged |
| Cleanup.PlaceholderNeedsPath | internal/adapter/handler.go:431-433 | a match always contains the placeholder path |
| ClaudeStream.NewState | internal/claude/streaming.go:26-32 | a fresh state has sent nothing, has no open block and starts at index 0 |
| ClaudeStream.EmitMessageStart | internal/claude/streaming.go:34-59 | `message_start` is emitted only when it was not sent before, and the state records that it was sent |
| ClaudeStream.MessageStartOnce | internal/claude/streaming.go:34-59 | two calls emit at most one `message_start` |
| ClaudeStream.EmitContentBlockStart | internal/claude/streaming.go:61-89 | the start carries the current index and records the block type; the index does not move |
| ClaudeStream.EmitContentBlockDelta | internal/claude/streaming.go:91-120 | the delta carries the current index; it is a thinking delta iff the block is thinking |
| ClaudeStream.EmitContentBlockStop | internal/claude/streaming.go:122-132 | the stop carries the current index, then the index advances by one and no block is open |
| ClaudeStream.EmitMessageStop | internal/claude/streaming.go:150-162 | `message_stop` is emitted only when it was not sent before |
| ClaudeStream.MessageStopOnce | internal/claude/streaming.go:150-162 | two calls emit at most one `message_stop` |
| ClaudeStream.BalancedBlocks | internal/claude/streaming.go:61-132 | a well-formed run with no open block has as many starts as stops, equal to the final index, and at most one `message_start` |
| ClaudeStream.NewProcessor | internal/claude/streaming.go:173-178 | a fresh processor satisfies the invariant and is in the initial phase |
| ClaudeStream.Switch | internal/claude/streaming.go:275-321 | after a switch exactly the new kind's mode is on, the invariant holds, and the events follow the block grammar |
| ClaudeStream.ProcessPart | internal/claude/streaming.go:275-322 | an empty part emits nothing; otherwise the mode follows the part's kind, and the events follow the block grammar |
| ClaudeStream.ProcessParts | internal/claude/streaming.go:264-271 | the events of all parts follow the block grammar |
| ClaudeStream.ProcessCandidates | internal/claude/streaming.go:248-272 | the events of all candidates follow the block grammar |
| ClaudeStream.ProcessGeminiData | internal/claude/streaming.go:238-273 | the first decoded payload opens with `message_start`, before any candidate lookup; a payload without candidates emits only that |
| ClaudeStream.ProcessItems | internal/claude/streaming.go:208-233 | items without a decodable payload emit nothing and change nothing |
| ClaudeStream.ProcessLine | internal/claude/streaming.go:202-236 | each line keeps the invariant and follows the block grammar; a line holding a JSON array processes exactly its elements as items, and a line that does not parse emits nothing |
| ClaudeStream.LineItems | internal/claude/streaming.go:203-208 | the items are exactly the elements of the array the line parses to, and none otherwise |
| ClaudeStream.ArrayPayloadsIgnored | internal/claude/streaming.go:202-236 | a line whose inner payloads are arrays emits nothing |
| ClaudeStream.ProcessLines | internal/claude/streaming.go:185-196 | a whole body keeps the invariant and follows the block grammar |
| ClaudeStream.Finalize | internal/claude/streaming.go:324-334 | finalizing never emits `message_start` and leaves `message_stop` sent |
| ClaudeStream.FinalizeCloses | internal/claude/streaming.go:324-334 | a started stream ends with `message_delta` (end_turn, the output count) and then `message_stop`, after closing any open block |
| ClaudeStream.FinalizeStopsOnce | internal/claude/streaming.go:324-334 | finalizing again emits no second `message_stop` |
| ClaudeStream.RunOfLines | internal/claude/streaming.go:180-196 | a body of plain newline-terminated lines is processed as exactly those lines, in order, then finalized |
| ClaudeStream.RunWellFormed | internal/claude/streaming.go:180-200 | every streamed body plus its finalization is a well-formed event sequence |
| ClaudeTypes.DecodeBlocks | internal/claude/types.go:179-190 | a block list decodes iff every block does, one block per element |
| ClaudeTypes.ParseMessageContent | internal/claude/types.go:179-190 | a string gives no blocks and the string; null gives nothing; an array gives one block per element iff every block decodes; a missing field, number, boolean or object is an error |
| ClaudeTypes.TextBlocksRead | internal/claude/types.go:179-190 | a list of text blocks reads back as those blocks |
| ClaudeTypes.ParseSystemPrompt | internal/claude/types.go:192-217 | no prompt gives "", a string gives itself, and a number, boolean or object is an error |
| ClaudeTypes.SystemPromptOfBlocks | internal/claude/types.go:192-217 | an array gives the text of each text-typed block followed by a newline |
| ClaudeTypes.NoTextBlocksNoPrompt | internal/claude/types.go:210-216 | an array without text-typed blocks gives "" |
| ClaudeRequest.CleanKeys | internal/claude/request.go:335-361 | the cleaned object keeps exactly the allowed keys, in order |
| ClaudeRequest.CleanDropsAll | internal/claude/request.go:335-361 | no blacklisted, `x-` or `$` key survives |
| ClaudeRequest.CleanedObject | internal/claude/request.go:335-361 | the result is clean all the way down through `properties` and `items` |
| ClaudeRequest.CleanIdempotent | internal/claude/request.go:335-361 | cleaning twice equals cleaning once |
| ClaudeRequest.TextBlocksResult | internal/claude/request.go:217-225 | tool output given as text blocks reads as their texts joined by newlines |
| ClaudeRequest.ResultText | internal/claude/request.go:232-238 | blank tool output becomes the failure or success message, chosen by `is_error` |
| ClaudeRequest.BlockStep | internal/claude/request.go:139-257 | each block gives at most one part: blank text gives none; thinking follows the enabled rule; a signed thought carries its signature forward |
| ClaudeRequest.BlockSteps | internal/claude/request.go:139-258 | at most one part per block |
| ClaudeRequest.MessageParts | internal/claude/request.go:129-259 | a message fails iff its content does not parse |
| ClaudeRequest.Contents | internal/claude/request.go:116-272 | the contents fail iff some message's content does not parse; there are at most as many contents as messages |
| ClaudeRequest.ContentsShape | internal/claude/request.go:116-272 | no content is empty and no role is `assistant`, because it becomes `model` |
| ClaudeRequest.StringConversation | internal/claude/request.go:129-268 | a conversation of non-blank strings becomes one text content per message |
| ClaudeRequest.BlankMessageSkipped | internal/claude/request.go:134-263 | a whitespace-only string message is dropped |
| ClaudeRequest.UseThenResult | internal/claude/request.go:189-210 | a tool result takes its function name from the earlier tool use with the same id |
| ClaudeRequest.SignatureCarriedToToolUse | internal/claude/request.go:163-203 | a signed thought's signature is carried onto the next unsigned tool use |
| ClaudeRequest.ToolSchema | internal/claude/request.go:292-307 | a schema that is an object comes out clean all the way down |
| ClaudeRequest.DeclsNames | internal/claude/request.go:282-318 | the declarations name the non-web-search tools, in order |
| ClaudeRequest.DeclsEmpty | internal/claude/request.go:282-318 | no declaration iff every tool is a web search |
| ClaudeRequest.BuildTools | internal/claude/request.go:274-333 | none iff no declarations and no web search; search only iff only web search; otherwise the declarations, with web search dropped |
| ClaudeRequest.Config | internal/claude/request.go:57-81 | `maxOutputTokens` is `max_tokens` or 8192; sampling values are copied; a thinking budget iff thinking is enabled, `budget_tokens` or 10000 |
| ClaudeRequest.SystemInstruction | internal/claude/request.go:47-53 | a system instruction iff the system prompt parses to non-empty text |
| ClaudeRequest.TransformRequest | internal/claude/request.go:19-114 | the request fails iff some message's content does not parse; otherwise project, model, request id, user agent and type are set and the contents, config and tools are built |
| ClaudeRequest.WebSearchFallbackUnreachable | internal/claude/request.go:85-102 | the tools entry is set iff `buildTools` gives tools, so the fallback never fires |
| ClaudeRequest.RequestTools | internal/claude/request.go:85-102 | the request's tools are `buildTools`' result, with `AUTO` tool config iff there are tools |
| ClaudeResponse.MapFinishReason | internal/claude/response.go:128-143 | `max_tokens` iff MAX_TOKENS; otherwise the same table as the response's stop reason |
| ClaudeResponse.MaxTokensMappedTwoWays | internal/claude/response.go:26-39 | MAX_TOKENS gives `end_turn` in the response but `max_tokens` in `MapFinishReason` |
| ClaudeResponse.PartBlock | internal/claude/response.go:43-71 | a thought gives thinking with its signature, else non-empty text gives text, else a call gives tool_use with its own id or a generated one, else nothing |
| ClaudeResponse.PartBlocksEmpty | internal/claude/response.go:42-72 | no blocks iff no part produces one |
| ClaudeResponse.UsageOf | internal/claude/response.go:104-123 | counts default to 0; the cache count is set iff present |
| ClaudeResponse.TransformResponse | internal/claude/response.go:8-126 | a nil response is an error; the content is never empty; no candidate gives one empty text block; the stop reason is the first candidate's |
| ClaudeResponse.ToolUseStop | internal/claude/response.go:26-58 | the stop reason is `tool_use` iff some part is a call or the finish reason is TOOL_USE |
| ClaudeResponse.StopAgreesWithMap | internal/claude/response.go:128-143 | without calls, both mappings agree on every finish reason except MAX_TOKENS |
| ClaudeResponse.GroundedEndsWithSearch | internal/claude/response.go:75-91 | a grounded candidate ends with one web-search block; an ungrounded one has no such block |
| ClaudeResponse.NothingGivesEmptyText | internal/claude/response.go:94-99 | no productive part and no grounding gives one empty text block |
| ClaudeHandler.RoleLabel | internal/adapter/claude_handler.go:223-229 | `Model` iff the role is assistant, `System` iff system, otherwise `User` |
| ClaudeHandler.BlockText | internal/adapter/claude_handler.go:241-272 | a text block writes its text; thinking, tool-use and tool-result blocks write tagged texts from which the thoughts, the ids, the name, the input text and the result content read back; an unknown type writes nothing; only an image uploads, at most one file, written `[Image]` |
| ClaudeHandler.BlocksText | internal/adapter/claude_handler.go:241-272 | a block list uploads at most one file per block |
| ClaudeHandler.BlocksTextConcat | internal/adapter/claude_handler.go:239-273 | a block list writes each block's own rendering, in order, with nothing between them |
| ClaudeHandler.MessageText | internal/adapter/claude_handler.go:223-277 | a message starts with its role head; unparsable content gives the head only; otherwise it ends with a blank line |
| ClaudeHandler.MessagesText | internal/adapter/claude_handler.go:223-278 | the text starts with the first message's head; no messages give nothing |
| ClaudeHandler.SystemSection | internal/adapter/claude_handler.go:215-221 | the section is present iff the system prompt is non-empty, and it is `**System**: ` plus the prompt and a blank line |
| ClaudeHandler.BuildClaudePrompt | internal/adapter/claude_handler.go:211-286 | the files are those the messages uploaded; the prompt starts with the system section and, when there are messages, ends with their text |
| ClaudeHandler.StringConversationPrompt | internal/adapter/claude_handler.go:215-286 | a conversation of non-empty string messages is the system section followed by each message under its role head, and uploads nothing |
| ClaudeHandler.HelloOnlyWhenEmpty | internal/adapter/claude_handler.go:280-283 | the prompt is `Hello` iff there are no messages and no system section |
| ClaudeHandler.StringMessagesFlatten | internal/adapter/claude_handler.go:223-278 | string messages flatten to their heads and texts |
| ClaudeHandler.TextBlocksFlatten | internal/adapter/claude_handler.go:241-244 | text blocks flatten to their concatenated texts |
| ClaudeHandler.UnparsableMessageRunsOn | internal/adapter/claude_handler.go:231-236 | an unparsable message's head runs straight into the next head |
| ClaudeHandler.CountTokensAppend | internal/adapter/claude_handler.go:191-203 | the count of two message lists is the sum of their counts |
| ClaudeHandler.TextBlocksTokens | internal/adapter/claude_handler.go:191-203 | text blocks count a quarter of each text's byte length |
| ClaudeHandler.StringMessageTokens | internal/adapter/claude_handler.go:191-203 | a string message counts a quarter of its byte length |
| ClaudeHandler.SplitTextTokens | internal/adapter/claude_handler.go:191-203 | splitting a text into two blocks changes the count by at most one |
| ClaudeHandler.AnswerBlocks | internal/adapter/claude_handler.go:105-126 | one or two blocks; thinking first; two iff both are non-empty; an empty text block when there is nothing |
| ClaudeHandler.Answer | internal/adapter/claude_handler.go:97-141 | the answer stops with `end_turn`, reports zero usage, and carries the model and assistant role |
| ClaudeHandler.MessagesHandler | internal/adapter/claude_handler.go:20-143 | an empty pool gives the 503 `overloaded_error` whatever the body; a bad body or an empty message list gives 400; only an accepted request is answered or streamed |
| ClaudeHandler.AcceptedRequest | internal/adapter/claude_handler.go:62-143 | an upstream failure gives 500 `api_error`; a streamed answer is well formed |
| ClaudeHandler.CountTokensHandler | internal/adapter/claude_handler.go:177-209 | a bad body gives 400; otherwise the count of the messages |
| OpenAIHandler.Authorize | internal/adapter/handler.go:48-76 | no key lets everything through; a missing header or a malformed one is rejected with its own message |
| OpenAIHandler.AuthAcceptsExactlyBearer | internal/adapter/handler.go:48-76 | with a key set, a request passes iff its header is `Bearer ` plus the key |
| OpenAIHandler.WrongTokenIsBadKey | internal/adapter/handler.go:69-72 | a wrong token is rejected as a bad key |
| OpenAIHandler.ImageInNameRoutesToImages | internal/adapter/handler.go:123-125 | a name containing `image` in any case is an image model |
| OpenAIHandler.NoIMeansTextModel | internal/adapter/handler.go:123-125 | a name without an `i` is not an image model |
| OpenAIHandler.ChatRoleLabel | internal/adapter/handler.go:153-158 | `Model` iff the role is model or assistant in any case; `User` never for system |
| OpenAIHandler.ImageURLText | internal/adapter/handler.go:178-201 | a plain URL is written as `[Image URL: …]`; an uploaded file is written `[Image]` |
| OpenAIHandler.DataURLUploadsPayload | internal/adapter/handler.go:181-197 | a data URL uploads its payload, and gives nothing when the upload fails |
| OpenAIHandler.PartText | internal/adapter/handler.go:166-204 | a part uploads at most one file; a non-object part gives nothing |
| OpenAIHandler.PartsText | internal/adapter/handler.go:166-205 | at most one file per part |
| OpenAIHandler.ContentText | internal/adapter/handler.go:162-206 | string content is itself; content that is neither string nor array gives nothing |
| OpenAIHandler.ChatMessageText | internal/adapter/handler.go:152-207 | a message starts with its role head and ends with a blank line |
| OpenAIHandler.ChatMessagesText | internal/adapter/handler.go:152-208 | the text starts with the first message's head; no messages give nothing |
| OpenAIHandler.BuildChatPrompt | internal/adapter/handler.go:149-213 | the prompt is `Hello` iff there are no messages |
| OpenAIHandler.ChatAgreesWithClaudePrompt | internal/adapter/handler.go:152-208 | for user, assistant and system string messages, both handlers write the same prompt |
| OpenAIHandler.ModelRoleDiffers | internal/adapter/handler.go:154 | the role `model` is written `Model` here but `User` by the Claude handler |
| OpenAIHandler.ChunkEvents | internal/adapter/handler.go:269-276 | one reasoning event carrying the thought when it is non-empty, first, and one content event carrying the text when it is non-empty, last; nothing else |
| OpenAIHandler.DeltaEvents | internal/adapter/handler.go:269-276 | deltas send only reasoning or content events |
| OpenAIHandler.StreamEvents | internal/adapter/handler.go:259-282 | the stream opens with the role chunk and ends with `[DONE]` |
| OpenAIHandler.StreamedAppend | internal/adapter/handler.go:259-282 | the streamed content and reasoning of two event lists are the concatenations |
| OpenAIHandler.DeltasCarryChunks | internal/adapter/handler.go:269-276 | the streamed content and reasoning are the chunks' texts and thoughts |
| OpenAIHandler.StreamMatchesCompletion | internal/adapter/handler.go:225-283 | the streamed content and reasoning equal the completion's content and reasoning |
| OpenAIHandler.EveryChunkSends | internal/adapter/handler.go:269-276 | every non-empty chunk sends at least one event |
| OpenAIHandler.FirstText | internal/adapter/handler.go:643-667 | a prompt found in a part list is some object part's text |
| OpenAIHandler.LastUserDecides | internal/adapter/handler.go:643-667 | the last user message decides the image prompt |
| OpenAIHandler.ImagesMarkdown | internal/adapter/handler.go:687-708 | the markdown is empty iff no full-size image could be fetched |
| OpenAIHandler.ImageAnswer | internal/adapter/handler.go:687-736 | a failure is 500; a stream sends one non-empty content chunk; a completion has content and no reasoning |
| OpenAIHandler.ImageAnswerNeedsAFetch | internal/adapter/handler.go:687-736 | the image answer succeeds iff some image could be fetched |
| OpenAIHandler.ImageChat | internal/adapter/handler.go:639-737 | no user prompt gives 400; an upstream failure gives 500; otherwise the answer is built from the images found |
| OpenAIHandler.ChatCompletionHandler | internal/adapter/handler.go:127-284 | an empty pool gives 503; a bad body gives 400; image models go to the image chat; an upstream failure gives 500; otherwise a stream or a completion |
| ImageHandler.SizeToAspectRatio | internal/adapter/image_handler.go:28-49 | a listed size gives its ratio; any other gives `1:1` |
| ImageHandler.RatiosFollowOrientation | internal/adapter/image_handler.go:28-49 | portrait sizes give portrait ratios, landscape sizes landscape ones, and square sizes `1:1` |
| ImageHandler.Clamp | internal/adapter/image_handler.go:72-77 | n is clamped into 1..4 |
| ImageHandler.OrDefault | internal/adapter/image_handler.go:78-86 | an empty setting takes its default |
| ImageHandler.Normalize | internal/adapter/image_handler.go:67-87 | an empty prompt is an error; otherwise n is in 1..4, the settings are non-empty, and prompt, quality and style are kept |
| ImageHandler.NormalizeIdempotent | internal/adapter/image_handler.go:67-87 | normalizing twice equals normalizing once |
| ImageHandler.NormalizeKeepsComplete | internal/adapter/image_handler.go:67-87 | a complete request is left as it is |
| ImageHandler.FinalPrompt | internal/adapter/image_handler.go:91-99 | the prompt starts with `Generate an image of ` and the request's prompt; what follows starts with the hd phrase iff the quality is `hd`, and ends with the vivid or natural phrase iff the style is `vivid` or `natural` |
| ImageHandler.FinalPromptInjective | internal/adapter/image_handler.go:91-99 | for requests with the same quality and style, the final prompts are equal iff the prompts are |
| ImageHandler.PlainPromptUndecorated | internal/adapter/image_handler.go:91-99 | without hd quality or a known style, the prompt is undecorated |
| ImageHandler.AttemptsAccount | internal/adapter/image_handler.go:103-123 | every attempt either succeeds or leaves one error; no error iff some attempt succeeded |
| ImageHandler.ImageGenerationHandler | internal/adapter/image_handler.go:51-144 | an empty pool gives 503; a bad body or an empty prompt gives 400; a success carries images |
| ImageHandler.FailureListsEveryAttempt | internal/adapter/image_handler.go:106-137 | when no attempt yields an image, the 500 lists each attempt's error |
| ImageHandler.GetNested | internal/adapter/image_handler.go:248-258 | an empty path gives the value itself, with null read as nil |
| ImageHandler.GetNestedAppend | internal/adapter/image_handler.go:248-258 | following a path in two legs is following it at once |
| ImageHandler.GetNestedStr | internal/adapter/image_handler.go:260-270 | a non-empty result is the string at the path; no value gives "" |
| PyAdapter.ExtOf | openai_adapter.py:138-140 | the extension holds no `;` or `/` |
| PyAdapter.PartOutcome | openai_adapter.py:133-145 | a text part adds its text and raises on a non-string; parts of other types add nothing |
| PyAdapter.ImageOutcome | openai_adapter.py:136-145 | a missing or falsy URL adds nothing; an image is added only from a decodable `data:image/` URL |
| PyAdapter.MessageOutcome | openai_adapter.py:129-145 | string content adds itself |
| PyAdapter.AssemblePrompt | openai_adapter.py:124-149 | the prompt is the collected texts joined by newlines, or the describe prompt when it is empty and there are images; it raises iff collecting raises |
| PyAdapter.StringConversationPrompt | openai_adapter.py:129-147 | a string conversation gives its texts joined by newlines |
| PyAdapter.NonStringTextRaises | openai_adapter.py:134-135 | a non-string text raises |
| PyAdapter.SplitLines | openai_adapter.py:163 | splitting gives at least one line, none holding a line boundary |
| PyAdapter.SplitLinesJoin | openai_adapter.py:163 | splitting newline-joined lines gives them back |
| PyAdapter.KeptLinesClean | openai_adapter.py:163 | every kept thought line is stripped and non-empty |
| PyAdapter.CleanThoughtsIdempotent | openai_adapter.py:163 | cleaning thoughts twice equals cleaning them once |
| PyAdapter.CleanThoughtsLines | openai_adapter.py:163 | the cleaned thoughts split back into the kept lines |
| PyAdapter.Compose | openai_adapter.py:161-167 | without thoughts the content is the text; otherwise the cleaned thoughts in `<thought>` tags come first; empty iff both are empty |
| PyAdapter.StreamChunks | openai_adapter.py:153-197 | the stream ends with `[DONE]`; an error gives one error chunk; otherwise the stop chunk comes last, and the role chunk is sent iff the content is non-empty |
| PyAdapter.ChatCompletions | openai_adapter.py:119-228 | an uninitialised client gives 503; otherwise it fails iff collecting the prompt raises; streaming is chosen by the request |
| PyAdapter.StreamAgreesWithCompletion | openai_adapter.py:153-228 | the stream carries the same content as the completion |
| Reconcile.FirstBar | cmd/server/main.go:82-84 | when the session cookie holds no bar, the first bar of the hash is the separator after it |
| Reconcile.HashSeparates | cmd/server/main.go:82-84 | without a bar in the session cookies, equal hashes mean equal cookies |
| Reconcile.BarConfusesHash | cmd/server/main.go:82-84 | with a bar inside a cookie, two different accounts get the same hash |
| Reconcile.NewHashesFacts | cmd/server/main.go:102-105 | the stored ids are exactly the loaded ids, and each gets the hash of its last account |
| Reconcile.ToInitFacts | cmd/server/main.go:107-117 | an account is re-initialised iff it is new or its hash changed, in load order |
| Reconcile.ToKeepFacts | cmd/server/main.go:107-117 | the kept accounts are the unchanged ones, and with the re-initialised ones they cover every account |
| Reconcile.InitAccount | cmd/server/main.go:144-184 | an account comes up iff one of 3 attempts succeeds, and it takes the first success |
| Reconcile.CollectFacts | cmd/server/main.go:191-194 | only successfully initialised accounts are handed over |
| Reconcile.CollectOrderFree | cmd/server/main.go:191-194 | with distinct ids, draining the results in any order collects the same map |
| Reconcile.DuplicateIdLastWins | cmd/server/main.go:191-194 | with one id reported twice, the success drained last decides the client |
| Reconcile.InitResults | cmd/server/main.go:134-186 | one result per re-initialised account |
| Reconcile.ChangedClient | cmd/server/main.go:134-194 | a changed account is handed over iff it came up |
| Reconcile.LoadPass | cmd/server/main.go:86-200 | a load failure changes nothing; no replacement keeps the old hashes; a replacement takes every loaded id and stores the new hashes |
| Reconcile.PassReplacesIffChanged | cmd/server/main.go:107-122 | the pool is replaced iff some account changed |
| Reconcile.PassStoresEveryHash | cmd/server/main.go:102-105 | after a replacement every loaded account's hash is stored, even for accounts that did not come up |
| Reconcile.ChangedUpCollected | cmd/server/main.go:107-196 | a changed account that came up is handed over |
| Reconcile.CollectedChangedUp | cmd/server/main.go:107-196 | a handed-over account changed and came up |
| Reconcile.ChangesAreChangedAndUp | cmd/server/main.go:107-196 | an account is handed over iff it changed and came up |
| Reconcile.PassHandsOverChanged | cmd/server/main.go:107-196 | the replacement receives exactly the changed accounts that came up |
| Reconcile.SecondPassQuiet | cmd/server/main.go:86-122 | a second pass over the same credentials changes nothing |

## Left out

- Network I/O is not modelled: the landing-page fetch, generate calls, `UploadFile`, `downloadImageAsBase64` and `fetchImageWithCookies`. Their status codes, bodies and results are parameters.
- OpenAIHandler.DataURLUploadsPayload: base64 decoding and the upload are one function parameter, so a bad payload and a failed upload are not told apart.
- The clock and random draws are parameters: message and request ids, `created` stamps, and the random request id draw.
- Goroutine completion order is not modelled in cmd/server/main.go. The model drains the results channel (cmd/server/main.go:189-192) in reload order, while the program drains it in completion order. `Reconcile.CollectOrderFree` shows the order does not matter when the ids are distinct. When two positions share an id, the later success wins in the model and the one that finished last wins in the program (`Reconcile.DuplicateIdLastWins`). This happens with an explicit id list that names an id twice, or when auto-detection finds both `__Secure-1PSID` and a `__Secure-1PSID_` key, which both give the id "".
- In internal/browser/chrome_fetcher.go the order of arrivals is a parameter of `ChromeFetcher.Place`. Locks and atomics are modelled as sequential state.
- Cookie.SaveToEnvAsWritten and Cookie.SaveToEnv promise read-back only for safe cookies: keys trimmed and free of `=` and newlines, values trimmed and free of newlines. A newline in a value splits the written line in two, and surrounding spaces are trimmed by the reader, so other cookies come back changed.
- Cookie.LoadCookies and Cookie.LoadCookiesIntended inherit that condition for the reload promise; a browser cookie value with surrounding spaces or a newline is not covered.
- ClaudeHandler.BlockText reads an id or a name back only when it holds no `"`. The source writes them with `%s` and no escaping, so a quote inside one makes the rendering ambiguous.
- ClaudeHandler.BlockText takes `json.Marshal` of a tool input (internal/adapter/claude_handler.go:248) as an unconstrained function parameter `marshal`. Go's map serialisation sorts keys and escapes HTML characters; the model promises nothing about the text between the `<tool_use>` tags, and so neither do `BlocksText`, `MessageText`, `MessagesText` and `BuildClaudePrompt`.
- `ReplaceAccounts` is not part of this model; its body is not in internal/balancer/balancer.go. `Reconcile.LoadPass` returns the arguments it would receive.
- ClaudeStream.ProcessPart: `html.UnescapeString` is a function parameter.
- ClaudeTypes.StrField matches keys exactly. Go's `encoding/json` also matches struct fields case-insensitively, so a key such as `"Type"` is read by the source and ignored here.
- Json.GjsonString gives the model's serialisation of an array or object. gjson returns the raw text, with its original spacing.
- Json.GjsonString returns a number's literal text. gjson does that only for integer literals; any other number is formatted from its float value (`strconv.FormatFloat(Num, 'f', -1, 64)`), so `1.50` reads as `1.5` and `1e3` as `1000`. Floating point is not modelled.
- GeminiDecode.LineParts only reads well-formed JSON. gjson's leniency on malformed text is not modelled; such a line reads as no array.
- GeminiDecode.ScanLines has no line limit. `bufio.Scanner`'s 10 MB token limit, which silently ends the scan (internal/adapter/handler.go:288-290), is not modelled.
- ClaudeRequest.ToolResultText re-serialises tool content that is neither a string nor a list of blocks. The source sends the raw request text (internal/claude/request.go:228), so whitespace and escapes may differ.
- Payload.BuildGeneratePayload writes compact JSON. The source keeps the template's spaces in `[null, "", null, null]` (internal/gemini/payload.go:81-82). The model escapes `<`, `>` and `&` as `\u003c`, `\u003e` and `\u0026`, as `encoding/json` does; sjson's own string writer is not modelled, so byte-exact agreement on those characters is not claimed. The round trip is proved for the model's text.
- ImageHandler.GetNested takes paths of natural numbers. The panic a negative index would cause (internal/adapter/image_handler.go:252-255) cannot arise, and every caller uses fixed non-negative paths.
- ChromeFetcher.ListedProfiles starts from a directory listing. The `ReadDir` error path of `ListChromeProfiles` is not modelled, nor are `findChromePath`, `copyFile`, the DevTools session of `FetchCookiesFromProfile` or the Firefox store lookup.
- ClaudeRequest.Config copies temperature and topP as opaque text. Floating point is not modelled.
- Fingerprinting (internal/gemini/fingerprint.go) is not modelled. It relies on global mutable state, randomness and sleeps.
- `ListModelsHandler`, `ClaudeListModelsHandler`, `list_models`, the CORS and logger middleware, gin plumbing, `watchEnvFile` and `main` are left out. They hold no decisions beyond fixed tables and I/O.
- PyAdapter.SplitLines treats `\r\n` as two breaks around an empty piece and keeps a trailing empty piece, where `str.splitlines` does neither. Both extra pieces are blank and blank lines are dropped, so the cleaned thoughts are unaffected.
- PyAdapter.ImageOutcome models Python truthiness for strings, lists, objects, booleans and null. A number's truthiness is read from its literal text.
- Pydantic's 422 validation, the adapter's temp-file writing and cleanup, and the Python client's start-up are left out. The client's readiness is a parameter.
- `ClaudeTypes.IsWebSearch` is a plain predicate with no contract of its own. `ClaudeRequest.DeclsEmpty` and `ClaudeRequest.BuildTools` state its effect.

## Findings

| source | as written | input that shows it | evidently intended | confidence | as-written member | corrected member |
|---|---|---|---|---|---|---|
| internal/gemini/client.go:117-121 | the session-id pattern `"f.sid":"(.*?)"` leaves its dot unescaped, so any character but a newline matches there | a landing page `"SNlM0e":"t""fXsid":"v"` sets FSID to `v` | only the literal `"f.sid":"` marker sets FSID | not executed | Client.Init, Client.InitTakesWildcard, Client.FSidWildcardAsWritten | Client.InitIntended, Client.IntendedSidNeedsLiteral, Client.FSidMarkerIsLiteral |
| internal/browser/cookie.go:222-230 | the first pass of `saveToEnv` reads a pair from every line holding `=`, comments included; the rewrite pass (239-244) skips comments, so the commented key is appended again | a `.env` holding only `#a=b`, saved with nothing to add, becomes `#a=b`, an empty line, `#a=b`; every later save adds one more copy | the first pass skips blank and comment lines, like the rewrite pass and the readers | not executed | Cookie.SaveToEnvAsWritten, Cookie.CommentCopiedOnSave, Cookie.LoadCookies | Cookie.SaveToEnv, Cookie.CommentKeptOnSave, Cookie.LoadCookiesIntended |
