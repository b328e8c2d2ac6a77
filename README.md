# Transcript summariser Lambda, modelled in Dafny

The repository is a demo pipeline. Audio is uploaded to an S3 bucket and
transcribed by Amazon Transcribe. A Lambda function then turns the
transcript JSON into speaker-labelled text, asks a Bedrock model for a
summary, and writes the summary back to the bucket. This project models
the three pieces of logic in `lambda-src/lambda_function.py`.

- `extract_transcript` is a loop over Transcribe's result items. It keeps
  the output text and the current speaker. A new speaker label writes a
  header `"\n" + label + ": "`. A punctuation item first right-strips the
  text. Every item then appends its content and one space. In
  `transcript.dfy`, the method `Extract` is that loop. It is proved against
  the fold `Run`/`ExtractTranscript`, and the lemmas are stated about that
  fold.
- `_results_key_for_transcript_key` maps a key to
  `results/<stem>-results.txt`. `result_key.dfy` defines `Name` and `Stem`
  the way `pathlib.PurePosixPath` does on Python 3.11, the Lambda runtime
  (`transcription-demo-infra/transcription_demo_infra/lambda_stack.py:56`).
  - Empty and `.` components are dropped.
  - A suffix is a last `.` that is neither the first nor the last
    character of the name.
- `lambda_handler` reads the object, extracts, summarises and writes the
  summary. `handler.dfy` models it as a method on a `Storage` class. The
  class holds the objects as a map and logs every `get_object` and
  `put_object` call. Parsing the JSON document and the language-model call
  are functions passed in by the caller.
- `text.dfy` holds Python's string helpers: `str.isspace`, `rstrip` and
  `in`.
- `scenarios.dfy` states the handler's unit tests as methods.

A punctuation item that changes the speaker also strips the header's final
space, so the item adds `"\n" + label + ":" + content + " "`
(`HeaderBeforePunctuation`).

## Model

| member | source | states |
|---|---|---|
| Transcript.AttachShape | lambda-src/lambda_function.py:68-70 | Attaching an item ends the text in its content plus one space. What comes before is a prefix of the old text, and only whitespace was dropped from it. A non-punctuation item drops nothing. |
| Transcript.StepShape | lambda-src/lambda_function.py:63-70 | After one iteration, the current speaker is the item's label when it has one, and otherwise it is unchanged. The text ends in the item's content plus one space. A non-punctuation item only extends the text. |
| Transcript.Extract | lambda-src/lambda_function.py:58-72 | The loop returns the fold `ExtractTranscript(items)`. The empty input gives `""`. The loop invariant keeps `(output_text, current_speaker)` equal to the fold over the items seen so far. |
| Transcript.CurrentSpeakerIsLastLabel | lambda-src/lambda_function.py:59-66 | `current_speaker` after any prefix is the last non-null label in it, or `None` when there is none. |
| Transcript.HeaderOnLabelChange | lambda-src/lambda_function.py:65-67 | An item with a non-null label that differs from the last label seen gets `"\n" + label + ": "` written right before it is attached. |
| Transcript.NoHeaderWithoutLabelChange | lambda-src/lambda_function.py:65-70 | An item that has no label, or repeats the last label seen, is attached with no header. |
| Transcript.SameLabelNoHeader | lambda-src/lambda_function.py:65-70 | The next item carrying the same label as the one before never re-emits the header. |
| Transcript.HeaderBeforeWord | lambda-src/lambda_function.py:65-70 | A non-punctuation item that changes the speaker adds exactly `"\n" + label + ": " + content + " "`. |
| Transcript.HeaderBeforePunctuation | lambda-src/lambda_function.py:65-70 | A punctuation item that changes the speaker loses the header's space: it adds `"\n" + label + ":" + content + " "`. |
| Transcript.StripHeader | lambda-src/lambda_function.py:67-69 | Right-stripping text that ends in a header removes only the header's final space. |
| Transcript.PunctuationFollowsWord | lambda-src/lambda_function.py:68-70 | After a punctuation item, the text ends in its content plus one space. The character before the content is not whitespace, unless nothing precedes the content. |
| Transcript.EndsWithLastContent | lambda-src/lambda_function.py:70 | For a non-empty input, the output ends with the content of the last item followed by one space. |
| Transcript.NoNewlineInTrailing | lambda-src/lambda_function.py:65-70 | When contents and labels hold no newline, the whitespace that `rstrip` would remove holds no newline. So no punctuation item ever strips a header's newline. |
| Transcript.NewlinesCountLabelRuns | lambda-src/lambda_function.py:59-70 | When contents and labels hold no newline, the output holds exactly one newline per header. That is one per run of equal adjacent labels, with unlabelled items skipped. |
| Transcript.UnlabelledIsFlat | lambda-src/lambda_function.py:63-70 | With no speaker label anywhere, the output is that of the same loop without headers. |
| Transcript.FlatWithoutPunctuationIsJoin | lambda-src/lambda_function.py:68-70 | With no punctuation, that loop gives every content followed by one space, in order. |
| Transcript.UnlabelledHasNoNewline | tests/test_extract_transcript.py:73-81 | With no speaker labels and no newline in any content, the output has no newline. |
| Transcript.NoLabels | lambda-src/lambda_function.py:63 | Items whose labels are all null contribute no label. |
| Transcript.EmptyItems | tests/test_extract_transcript.py:24-26 | The empty item list gives `""`. |
| Transcript.SingleUnlabelledWord | tests/test_extract_transcript.py:29-37 | One unlabelled word `Hello` gives `"Hello "`. |
| Transcript.FirstSpeakerTurn | tests/test_extract_transcript.py:44-46 | The first three items of the two-speaker test give `"\nSPEAKER_00: Hello thanks. "`, with speaker `SPEAKER_00`. |
| Transcript.SecondSpeakerTurn | tests/test_extract_transcript.py:47-48 | The next two items add `"\nSPEAKER_01: How can "`, one header for the new speaker. |
| Transcript.TwoSpeakersWithPunctuation | tests/test_extract_transcript.py:40-55 | The whole two-speaker test gives exactly `"\nSPEAKER_00: Hello thanks. \nSPEAKER_01: How can? "`. |
| Transcript.GreetingWithPeriod | tests/test_extract_transcript.py:58-70 | `Hi` followed by `.` gives `"\nSPEAKER_00: Hi. "`, with the space before the full stop stripped. |
| Transcript.PunctuationStep | lambda-src/lambda_function.py:68-70 | A punctuation item with no label, or with the current speaker's label, that follows a word ending in non-whitespace replaces the word's trailing space with the punctuation and one space. |
| Text.RStrip | lambda-src/lambda_function.py:69 | `str.rstrip()` returns the longest prefix whose remainder is all whitespace, with `str.isspace`'s whitespace set, and that prefix does not end in whitespace. |
| Text.RStripUnique | lambda-src/lambda_function.py:69 | Those three properties determine `rstrip`'s result. |
| Text.RStripConcat | lambda-src/lambda_function.py:69 | `rstrip(a + b)` is `rstrip(a)` when `b` is all whitespace, and `a + rstrip(b)` otherwise. |
| ResultKey.Name | lambda-src/lambda_function.py:18 | `PurePosixPath(key).name` contains no `/`, is never `.` and is no longer than the key. |
| ResultKey.Stem | lambda-src/lambda_function.py:18 | `.stem` keeps the name exactly when it has no suffix. Otherwise it is the non-empty part before the last `.`, and what follows that dot is a non-empty extension containing no dot. |
| ResultKey.ResultsKeyFor | lambda-src/lambda_function.py:16-19 | The result key starts with `results/` and ends with `-results.txt`. After the prefix it has no `/`, so every result lands directly under `results/`. |
| ResultKey.LastSegmentOfJoin | lambda-src/lambda_function.py:18 | The last `/`-separated segment of `dir + name` is `name`. |
| ResultKey.NameOfJoin | lambda-src/lambda_function.py:18 | The name of `dir/name` is `name`. |
| ResultKey.NameOfEmptyPath | lambda-src/lambda_function.py:18 | The empty path has the empty name. |
| ResultKey.NameOfCurrentDirectory | lambda-src/lambda_function.py:18 | The path `.` has the empty name. |
| ResultKey.NameIgnoresTrailingSlash | lambda-src/lambda_function.py:18 | A trailing `/` does not change the name. |
| ResultKey.NameIgnoresCurrentDirectory | lambda-src/lambda_function.py:18 | A trailing `/.` does not change the name. |
| ResultKey.StemOfSuffixed | lambda-src/lambda_function.py:18 | The stem of `base.ext` is `base`. |
| ResultKey.ResultsKeyOfTranscript | lambda-src/lambda_function.py:16-19 | The key `dir/base.ext` maps to `results/base-results.txt`. |
| ResultKey.SampleTranscriptKey | tests/test_lambda_handler.py:61 | `demo/sample-transcript.json` maps to `results/sample-transcript-results.txt`. |
| ResultKey.DotFileKey | lambda-src/lambda_function.py:18 | A name whose only dot is the leading one is kept whole: `demo/.transcript` maps to `results/.transcript-results.txt`. |
| Text.Contains | lambda-src/lambda_function.py:26 | Python's `sub in s`: it holds for a prefix and for a suffix of `s`, and never for a `sub` longer than `s`. |
| Handler.Summary | lambda-src/lambda_function.py:31-36 | The outcome of fetch, parse and summarise. A denied bucket gives `AccessDenied` and a missing object gives `NoSuchKey`. A parse failure gives the parse error. Otherwise the result is the summarizer's answer on the extracted transcript. |
| Handler.SuccessBody | lambda-src/lambda_function.py:51 | The 200 message is exactly `Successfully summarized `, the key, ` from bucket `, the bucket, `. Summary: ` and the summary, in that order. |
| Handler.Fetch | lambda-src/lambda_function.py:31-32 | A read succeeds exactly when the object exists and the bucket allows reads, and it then gives the object's body. |
| Handler.Storage.GetObject | lambda-src/lambda_function.py:31-32 | `get_object` logs the call and returns `Fetch` of the current objects. |
| Handler.Storage.PutObject | lambda-src/lambda_function.py:39-44 | `put_object` logs the call. It creates or overwrites exactly the target object, or fails and changes nothing. |
| Handler.LambdaHandler | lambda-src/lambda_function.py:22-52 | <ul><li>A key without `-transcript.json` returns no result and makes no read or write.</li><li>Otherwise it makes exactly one read, of the event's object, and returns 200 or 500, decided by the fetch, parse and summary result and by whether the write is allowed.</li><li>On 500 the body starts with `Error occurred: ` and storage is unchanged.</li><li>On 200 exactly one write is made: the summary, as `text/plain`, at `results/<stem>-results.txt` in the same bucket. No other object changes.</li></ul> |
| Scenarios.SkipsKeyWithoutMarker | tests/test_lambda_handler.py:35-38 | The key `results.txt` gives no result and no storage call. |
| Scenarios.WritesSummaryOnce | tests/test_lambda_handler.py:41-63 | Reading `demo/sample-transcript.json` gives 200. It makes one write, the summary as `text/plain` at `results/sample-transcript-results.txt` in `my-bucket`, and the transcript stays as it was. |
| Scenarios.ReadErrorGives500 | tests/test_lambda_handler.py:66-73 | A failing read gives 500, a body containing `Error occurred`, and no write. |

## Left out

- `bedrock_summarisation` (the Jinja template, reading `prompt_template.txt`, the Bedrock Converse call) is the `summarize` parameter: a foreign service.
- `json.loads`, the lookup of `results.items`, `alternatives[0].content`, `type` and `speaker_label` are the `parse` parameter. A malformed document is its `Failure`. This is library parsing.
- The UTF-8 decoding of the object body is not modelled: the stored body is already text, and a decode error counts as a parse failure.
- The `json.dumps` encoding of the response body is not modelled: the body is the plain message, because the quoting is library behaviour.
- `print` logging is left out, because it is output only.
- The module-level boto3 clients and the `BEDROCK_REGION` lookup are left out: they are configuration.
- Only `Records[0]` is read, so the event is one bucket and key pair. The URL-encoding of keys in S3 notifications is not modelled, because the code uses the key as given.
- Handler.LambdaHandler: the exception texts are placeholders (`NoSuchKey`, `AccessDenied`, or the oracle's error string), because real boto3 messages are service-defined. Storage failures are modelled only as missing objects and per-bucket read or write denial.
- Handler.LambdaHandler: an exception raised by `put_object` after the service stored the object is not modelled, because object storage here is atomic.
- The CDK stacks and the demo scripts (uploads, Transcribe jobs, polling loops) are infrastructure and I/O. The only fact used from them is the Python 3.11 runtime. The `.json` suffix filter on the S3 notification also means results never retrigger the handler.
- The test scaffolding (boto3 mocks, import path changes) is not modelled.
