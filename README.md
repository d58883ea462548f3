# Find_Me: a Dafny model of its string scanners

Find_Me is a small C program (`Find_Me.c`) that guesses where the machine
it runs on is. It asks three geolocation services for the latitude and
longitude of the machine's public IP address, then averages the three
answers. The answers come back in three formats:

- ip-api.com sends a CSV record. `fetch` extracts its fields.
- tools.keycdn.com sends a JSON object. `parse` reads quoted values and
  `extractValue` reads unquoted numbers.
- ipinfo.io sends a JSON object whose `"loc"` value is `"lat,lon"`.

libcurl delivers each response through the callback `write_mem`, which
appends each chunk to a growing, NUL-terminated buffer.

This project models that core. The network is left out: each response is
a parameter.

- **Strings.** C strings are `seq<char>` holding no NUL. A cursor past the
  last character reads the terminator (`CStrings.At`). Every
  `while (*p != X) { if (*p == '\0') fail; p++; }` loop is the function
  `CStrings.Seek`.
- **Exits.** Every `exit(1)` becomes a `Failure` carrying an `Outcomes.Error`.
  The glue in `main` chains the steps with `:-`, so the first failure ends
  the run.
- **Undefined behaviour.** Each operation has a "defined" predicate
  (`Csv.FetchDefined`, `Json.ParseDefined`, `Json.ExtractDefined`,
  `Providers.IpApiDefined`, ...). It is the operation's precondition and
  states exactly when the C code stays within its buffers and strings.
  Every error the code handles itself is modelled as a result, never as a
  precondition.
- **Structure.** Each C routine is an imperative Dafny method with the
  routine's loops. Each method is proved equal to a specification function
  (`Csv.FetchResult`, `Json.QuotedValue`, `Json.NumberValue`,
  `Providers.LocSplit`, ...). The properties the program relies on are
  lemmas about those functions:
  - fetch returns the v-th field of a record written from a field list;
  - a value is found exactly when its delimiters are where they should be;
  - the status checks accept exactly the right statuses;
  - a tools.keycdn.com failure is not fatal.

Modules:

| file | module | contents |
|---|---|---|
| cstrings.dfy | CStrings | C strings, `At`, `Seek`, `strstr` |
| outcomes.dfy | Outcomes | `Error`, `Result` |
| csv.dfy | Csv | `fetch`: `Scan`/`Safe` specification and the `Fetch` method |
| csv_record.dfy | CsvRecord | records built from fields, and what fetch yields on them |
| json.dfy | Json | `parse` and `extractValue` |
| json_layout.dfy | JsonLayout | the JSON results stated by the layout around the value |
| web_data.dfy | WebBuffer | `struct web_data` and `write_mem` |
| providers.dfy | Providers | the three per-provider blocks of `main`, and their composition |

Behaviours of the code that the model keeps as written:

- **Status prefix.** The ip-api.com check is `strncmp(csv_field, "success", 7)`.
  The comment above it says "equals", but the code accepts any status that
  starts with "success". The model follows the code (`Providers.StatusAccepted`).
- **Quote probe.** `parse` probes for the closing quote from one character
  past the value's first character. So an empty value `""` succeeds only
  when some later quote follows (`JsonLayout.EmptyLastValueFails`).
- **Minus sign.** `extractValue` skips to the first digit, so a minus sign
  before a number is dropped (`JsonLayout.MinusSignDropped`).
- **Text after a closing quote.** In `fetch`, the closing quote of a
  quoted field stays in the working buffer as its last character, and the
  character after it is skipped. `Csv.Scan` models this on any input.
  `CsvRecord` proves fetch exact on records where a comma follows every
  closing quote.
- **Text before a quote.** In `fetch`, an opening quote inside a field
  resets the buffer (`bi = -1`, line 421), so whatever the field held
  before the quote is dropped (`CsvRecord.Field`'s `lead`).
- **tools.keycdn.com status.** Only a status that parses but is not
  "success" is tolerated and leaves the sample at (0, 0). A response in
  which `parse` cannot find the quoted `"status"` value still ends the run,
  because `parse` itself exits (lines 136, 269-301); `Providers.KeyCdn`
  returns that failure.

## Model

| member | source | states |
|---|---|---|
| CStrings.Seek | Find_Me.c:269-277 | the scan stops at the first character of the class at or after the start, or at the terminator when none follows |
| CStrings.SeekMissing | Find_Me.c:269-277 | a scan reaches the terminator exactly when no character of its class follows |
| CStrings.SeekShift | Find_Me.c:410-458 | a scan over `pre + rest` that starts inside `rest` finds what the scan of `rest` alone finds |
| CStrings.Strstr | Find_Me.c:267 | strstr returns the first occurrence of the key, and NULL exactly when the key does not occur |
| Csv.CopyQuoted | Find_Me.c:416-435 | the quoted-field loop copies the text up to the next quote, keeps that quote in the buffer and returns where it stands; the "Malformed CSV field" exit cannot be reached |
| Csv.Fetch | Find_Me.c:392-470 | fetch's result (the field, InvalidFieldIndex for v < 1, or FieldNotFound(v)) is the scan specification `FetchResult`; the overflow break at 456-457 cannot be reached |
| Csv.ScanShift | Find_Me.c:410-458 | the scan reads only forward, so a record's prefix does not change how its rest is scanned |
| Csv.SafeShift | Find_Me.c:410-458 | the same holds for the absence of undefined behaviour |
| Csv.ScanRun | Find_Me.c:410-458 | a run of characters that are neither quotes nor commas is copied into the field unchanged |
| Csv.SafeRun | Find_Me.c:453-457 | copying such a run stays in the buffer when room is left after it |
| CsvRecord.RecordScan | Find_Me.c:436-465 | on a well-formed record, the scan with c fields counted yields field v - c + 1, or reports field v missing |
| CsvRecord.RecordSafe | Find_Me.c:410-458 | on a well-formed record, the scan stays within the buffer and the string |
| CsvRecord.RenderIsCString | Find_Me.c:410 | a well-formed record holds no NUL |
| CsvRecord.RecordFetch | Find_Me.c:392-470 | on a well-formed record, fetch(v) is defined and yields the v-th field's text without quotes, InvalidFieldIndex for v < 1, or FieldNotFound(v) past the last field |
| Json.KeyAt | Find_Me.c:267 | the colon scan starts one character into the key's first match, at most at the terminator |
| Json.QuotedValue | Find_Me.c:261-318 | parse's result: on failure the error is UnableToParse for this key, and on success the value holds no quote |
| Json.SkipTo | Find_Me.c:269-301 | each scanning loop of parse and extractValue stops where `Seek` says |
| Json.CopyValue | Find_Me.c:303-317 | the copy loop writes the characters up to the delimiter, then NUL, and writes nothing past the terminator; "Malformed json value" cannot be reached |
| Json.QuotedValueAt | Find_Me.c:289-317 | where the quote scans stop determines the value parse yields |
| Json.LocateQuoted | Find_Me.c:266-301 | parse's three scans fail exactly as `QuotedValue` does; on success they give the value's start and the probe's stop |
| Json.Parse | Find_Me.c:261-318 | parse yields `QuotedValue` and leaves it NUL-terminated in `val`, writing nothing past the terminator; on failure `val` is untouched |
| Json.QuotedValueFails | Find_Me.c:269-301 | parse fails exactly when there is no colon after the key match, no quote after the colon, or no quote from the value's second character on |
| Json.NumberValue | Find_Me.c:326-381 | extractValue's result: on failure the error is UnableToParse for this key; on success the value starts with a digit and holds no ',', ' ' or '}' |
| Json.NumberValueAt | Find_Me.c:343-380 | where the digit and delimiter scans stop determines the value extractValue yields |
| Json.LocateNumber | Find_Me.c:331-364 | extractValue's three scans fail exactly as `NumberValue` does; on success they give the number's bounds |
| Json.ExtractValue | Find_Me.c:326-381 | extractValue yields `NumberValue` and leaves it NUL-terminated in `val`, writing nothing past the terminator; on failure `val` is untouched |
| Json.NumberValueFails | Find_Me.c:333-364 | extractValue fails exactly when there is no colon after the key match, no digit after the colon, or no ',', ' ' or '}' after the first digit |
| JsonLayout.ProbeFinds | Find_Me.c:291-301 | the closing-quote probe succeeds when the value is not empty or a later quote follows |
| JsonLayout.QuotedValueFound | Find_Me.c:261-318 | with the first colon after the key, the first quote after it, and the next quote after that, parse yields the text between the quotes |
| JsonLayout.EmptyLastValueFails | Find_Me.c:291-301 | an empty quoted value with no quote after it makes parse fail |
| JsonLayout.NumberValueFound | Find_Me.c:326-381 | with the first colon, the first digit after it and the next delimiter, extractValue yields the text from the digit to the delimiter |
| JsonLayout.MinusSignDropped | Find_Me.c:343-352 | a minus sign before the digits is not part of the value extractValue yields |
| WebBuffer.WebData.constructor | Find_Me.c:56-57 | a new buffer holds an empty text in a one-character block |
| WebBuffer.WebData.WriteMem | Find_Me.c:480-500 | write_mem appends the chunk to the text, keeps it NUL-terminated in a fresh block one character longer, and returns the chunk's length; it fails with UnableToReallocate exactly when realloc fails |
| Providers.StatusAcceptedIff | Find_Me.c:96-101 | the strncmp check accepts exactly the statuses of the form "success" + tail |
| Providers.StripLast | Find_Me.c:112 | the stripped IP followed by the removed last character is the fetched field |
| Providers.IpApi | Find_Me.c:94-112 | the ip-api.com block yields `IpApiResult`: status, then fields 8, 9 and 14, each exit modelled |
| Providers.IpApiOfRecord | Find_Me.c:94-112 | on a well-formed record, the block fails with the status when that status does not start with "success", fails on the first of fields 8, 9 and 14 that is missing, and otherwise yields (field 8, field 9) and field 14 without its last character |
| Providers.KeyCdn | Find_Me.c:136-149 | the tools.keycdn.com block yields `KeyCdnResult`: a status other than "success" leaves the sample at (0, 0) |
| Providers.KeyCdnSampleRead | Find_Me.c:136-145 | a tools.keycdn.com sample other than (0, 0) comes from status "success", and its coordinates are the numbers read for "latitude" and "longitude", each starting with a digit |
| Providers.LocSplitFails | Find_Me.c:179-188 | the "loc" split fails exactly when the value holds no comma |
| Providers.LocSplitIff | Find_Me.c:179-193 | the split yields (lat, lon) exactly when the value is lat + "," + lon and lat holds no comma |
| Providers.SplitLoc | Find_Me.c:179-193 | the comma search yields `LocSplit` of the value; on success only the comma is overwritten, with NUL, and on failure the buffer is unchanged |
| Providers.IpInfo | Find_Me.c:176-193 | the ipinfo.io block yields the two halves of the "loc" value as its sample |
| Providers.ReadProviders | Find_Me.c:54-193 | the three reads yield the IP from ip-api.com and the three samples in order, or the first fatal error |
| Providers.KeyCdnFailureNotFatal | Find_Me.c:58-59 | when the tools.keycdn.com status is not "success" and the other providers succeed, the reads succeed with (0, 0) as the second sample |

## Left out

- libcurl (`curl_easy_*`), the network and the CURLE_OK checks (Find_Me.c lines 67-87, 118-132, 155-173): each response is a parameter of the model, and a failed transfer is not modelled.
- The URL strings and their `strcpy`/`strcat` construction (lines 62-64, 120, 157-159): they only feed the network calls.
- `printf`/`fprintf` output: the text of each diagnostic is not modelled, only which `Error` ends the run.
- `strtod` and the floating-point averaging, maximum and radius computation (lines 105-108, 141-144, 192-193, 211-250): coordinates are kept as the text strtod would read (`Providers.Coordinate`), since Dafny has no IEEE double arithmetic here.
- WebBuffer.WebData.WriteMem: `size * nmemb` and `size + realsize + 1` are `size_t` values; their wrap-around is not modelled, because integers are unbounded.
- WebBuffer.WebData.WriteMem: the outcome of realloc is the parameter `reallocOk`. On failure the contract says nothing about the buffer: the C code has already overwritten its pointer with NULL before it exits.
- WebBuffer.WebData.constructor: the first byte of the `malloc(1)` block is unset in C; the model does not state its value.
- The caller's `BUFSIZE` buffers `csv_field`, `ip` and `value`: `Providers.IpApiDefined`, `KeyCdnDefined` and `IpInfoDefined` require every value copied into them to fit, because an overflow is undefined behaviour.
- Csv.Fetch: the overflow `break` (lines 456-457), the unterminated quoted field (lines 422-432) and a closing quote as the record's last character (lines 434 and 453-454 then move the cursor past the terminator) are excluded by `Csv.Safe`, because each leads to writes or reads outside the buffers; this is why `CsvRecord.WellFormed` makes the last field plain. The model proves that `Safe` makes them unreachable.
- Json.Parse and Json.ExtractValue: a key that does not occur makes `strstr(...) + 1` undefined, and so does an opening quote that is the last character in parse. Both are excluded by `ParseDefined`/`ExtractDefined` and are not modelled as errors.
- `main`'s display of results (lines 236-250) and `curl_easy_cleanup`: output only.
