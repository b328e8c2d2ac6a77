/** The handler's unit tests, stated as methods whose postconditions are the
    tests' assertions. Each builds its own store and calls the handler. */
module Scenarios {
  import opened Wrappers
  import opened Text
  import opened Transcript
  import opened ResultKey
  import opened Handler

  /** A key without the transcript marker is skipped: no result, no storage call. */
  method SkipsKeyWithoutMarker() returns (response: Option<Response>, gets: seq<ObjectRef>, puts: seq<PutRequest>)
    ensures response == None && gets == [] && puts == []
  {
    var store := new Storage(map[], {}, {});
    UnmarkedKey();
    response := LambdaHandler(store, Event("my-bucket", "results.txt"),
                              _ => Failure("unused"), _ => Failure("unused"));
    gets, puts := store.getLog, store.putLog;
  }

  /** A readable transcript is summarised and the summary written once, as
      plain text, to `results/sample-transcript-results.txt` in the same
      bucket; the transcript itself stays as it was. `items` and `summary`
      are whatever parsing and the language model return. */
  method WritesSummaryOnce(transcriptJson: string, items: seq<Item>, summary: string)
    returns (response: Option<Response>, puts: seq<PutRequest>, objects: map<ObjectRef, StoredObject>)
    ensures response.Some? && response.value.statusCode == 200
    ensures puts == [PutRequest(ObjectRef("my-bucket", "results/sample-transcript-results.txt"), summary, "text/plain")]
    ensures objects == map[ObjectRef("my-bucket", "demo/sample-transcript.json") := StoredObject(transcriptJson, "application/json"),
                           ObjectRef("my-bucket", "results/sample-transcript-results.txt") := StoredObject(summary, "text/plain")]
  {
    var source := ObjectRef("my-bucket", "demo/sample-transcript.json");
    var target := ObjectRef("my-bucket", "results/sample-transcript-results.txt");
    var event := Event(source.bucket, source.key);
    var before := map[source := StoredObject(transcriptJson, "application/json")];
    var parse: string -> Result<seq<Item>, string> := _ => Success(items);
    var summarize: string -> Result<string, string> := _ => Success(summary);
    var store := new Storage(before, {}, {});
    SampleKeyMarked();
    SampleTranscriptKey();
    assert ResultRef(event) == target;
    StoredTranscriptSummary(before, event, parse, summarize, items, summary);
    response := LambdaHandler(store, event, parse, summarize);
    puts, objects := store.putLog, store.objects;
    assert objects == before[target := StoredObject(summary, PlainText)];
  }

  /** A failing read ends in status 500 with an "Error occurred" message and
      nothing written. */
  method ReadErrorGives500() returns (response: Option<Response>, puts: seq<PutRequest>)
    ensures response.Some? && response.value.statusCode == 500
    ensures Contains(response.value.body, "Error occurred")
    ensures puts == []
  {
    var store := new Storage(map[], {}, {});
    FooKeyMarked();
    response := LambdaHandler(store, Event("my-bucket", "demo/foo-transcript.json"),
                              _ => Failure("unused"), _ => Failure("unused"));
    puts := store.putLog;
    assert "Error occurred" <= response.value.body[0..];
  }

  lemma StoredTranscriptSummary(objects: map<ObjectRef, StoredObject>, event: Event,
                                parse: string -> Result<seq<Item>, string>,
                                summarize: string -> Result<string, string>,
                                items: seq<Item>, summary: string)
    requires ObjectRef(event.bucket, event.key) in objects
    requires parse(objects[ObjectRef(event.bucket, event.key)].body) == Success(items)
    requires summarize(ExtractTranscript(items)) == Success(summary)
    ensures Summary(objects, {}, event, parse, summarize) == Success(summary)
  {
  }

  lemma UnmarkedKey()
    ensures !Contains("results.txt", TranscriptMarker)
  {
    forall i | 0 <= i <= |"results.txt"| ensures !(TranscriptMarker <= "results.txt"[i..]) {
      assert |"results.txt"[i..]| < |TranscriptMarker|;
    }
  }

  lemma SampleKeyMarked()
    ensures Contains("demo/sample-transcript.json", TranscriptMarker)
  {
    assert "demo/sample-transcript.json"[11..] == TranscriptMarker;
  }

  lemma FooKeyMarked()
    ensures Contains("demo/foo-transcript.json", TranscriptMarker)
  {
    assert "demo/foo-transcript.json"[8..] == TranscriptMarker;
  }
}
