/** `lambda_handler`: on an object-created notification, read the transcript,
    extract its text, summarise it and write the summary next to it. Object
    storage is a class whose methods log every call; parsing the JSON document
    and the language-model call are functions passed in by the caller. */
module Handler {
  import opened Wrappers
  import opened Text
  import opened Transcript
  import opened ResultKey

  /** Only keys containing this text are processed. */
  const TranscriptMarker := "-transcript.json"
  const PlainText := "text/plain"
  const ErrorPrefix := "Error occurred: "
  const SuccessLead := "Successfully summarized "

  /** The text of the storage service's errors. */
  const NoSuchKey := "NoSuchKey"
  const AccessDenied := "AccessDenied"

  datatype ObjectRef = ObjectRef(bucket: string, key: string)
  datatype StoredObject = StoredObject(body: string, contentType: string)
  /** One `put_object` call, whether or not it succeeded. */
  datatype PutRequest = PutRequest(target: ObjectRef, body: string, contentType: string)

  /** `Records[0]` of the notification: the bucket and key of the new object. */
  datatype Event = Event(bucket: string, key: string)

  /** The handler's return value `{"statusCode": ..., "body": ...}`. */
  datatype Response = Response(statusCode: int, body: string)

  /** What `get_object` and reading its body give: the text, or the error. */
  function Fetch(objects: map<ObjectRef, StoredObject>, getDenied: set<string>, target: ObjectRef): (r: Result<string, string>)
    ensures r.Success? <==> target.bucket !in getDenied && target in objects
    ensures r.Success? ==> r.value == objects[target].body
  {
    if target.bucket in getDenied then Failure(AccessDenied)
    else if target !in objects then Failure(NoSuchKey)
    else Success(objects[target].body)
  }

  /** An object store. Reads fail for buckets in `getDenied` and for missing
      objects; writes fail for buckets in `putDenied`. */
  class Storage {
    var objects: map<ObjectRef, StoredObject>
    const getDenied: set<string>
    const putDenied: set<string>
    /** Every `get_object` call, in order. */
    var getLog: seq<ObjectRef>
    /** Every `put_object` call, in order. */
    var putLog: seq<PutRequest>

    constructor (objects: map<ObjectRef, StoredObject>, getDenied: set<string>, putDenied: set<string>)
      ensures this.objects == objects && this.getDenied == getDenied && this.putDenied == putDenied
      ensures getLog == [] && putLog == []
    {
      this.objects := objects;
      this.getDenied := getDenied;
      this.putDenied := putDenied;
      getLog := [];
      putLog := [];
    }

    /** `get_object(Bucket, Key)` and reading its body. */
    method GetObject(target: ObjectRef) returns (r: Result<string, string>)
      modifies this`getLog
      ensures getLog == old(getLog) + [target]
      ensures r == Fetch(objects, getDenied, target)
    {
      getLog := getLog + [target];
      if target.bucket in getDenied {
        r := Failure(AccessDenied);
      } else if target !in objects {
        r := Failure(NoSuchKey);
      } else {
        r := Success(objects[target].body);
      }
    }

    /** `put_object(Bucket, Key, Body, ContentType)`: creates or overwrites. */
    method PutObject(target: ObjectRef, body: string, contentType: string) returns (r: Result<(), string>)
      modifies this`objects, this`putLog
      ensures putLog == old(putLog) + [PutRequest(target, body, contentType)]
      ensures target.bucket in putDenied ==> r == Failure(AccessDenied) && objects == old(objects)
      ensures target.bucket !in putDenied ==>
                r == Success(()) && objects == old(objects)[target := StoredObject(body, contentType)]
    {
      putLog := putLog + [PutRequest(target, body, contentType)];
      if target.bucket in putDenied {
        r := Failure(AccessDenied);
      } else {
        objects := objects[target := StoredObject(body, contentType)];
        r := Success(());
      }
    }
  }

  /** Fetch, extract and summarise: the summary to write, or the text of the
      first exception raised. */
  function Summary(objects: map<ObjectRef, StoredObject>, getDenied: set<string>, event: Event,
                   parse: string -> Result<seq<Item>, string>,
                   summarize: string -> Result<string, string>): (r: Result<string, string>)
    ensures var source := ObjectRef(event.bucket, event.key);
      && (event.bucket in getDenied ==> r == Failure(AccessDenied))
      && (event.bucket !in getDenied && source !in objects ==> r == Failure(NoSuchKey))
      && (event.bucket !in getDenied && source in objects ==>
            var document := parse(objects[source].body);
            && (document.Failure? ==> r == Failure(document.error))
            && (document.Success? ==> r == summarize(ExtractTranscript(document.value))))
  {
    var fetched := Fetch(objects, getDenied, ObjectRef(event.bucket, event.key));
    if fetched.Failure? then Failure(fetched.error)
    else
      var document := parse(fetched.value);
      if document.Failure? then Failure(document.error)
      else summarize(ExtractTranscript(document.value))
  }

  /** Where the summary of `event`'s transcript goes. */
  function ResultRef(event: Event): ObjectRef
  {
    ObjectRef(event.bucket, ResultsKeyFor(event.key))
  }

  function SuccessBody(event: Event, summary: string): (r: string)
    ensures SuccessLead <= r
    ensures |SuccessLead| + |event.key| <= |r| && r[|SuccessLead|..|SuccessLead| + |event.key|] == event.key
    ensures EndsWith(r, ". Summary: " + summary)
    ensures |r| == |SuccessLead| + |event.key| + |" from bucket " + event.bucket| + |". Summary: " + summary|
    ensures r[|SuccessLead| + |event.key|..|r| - |". Summary: " + summary|] == " from bucket " + event.bucket
  {
    var tail := " from bucket " + event.bucket + ". Summary: " + summary;
    assert SuccessLead + event.key + " from bucket " + event.bucket + ". Summary: " + summary
        == SuccessLead + event.key + tail;
    assert (SuccessLead + event.key + tail)[|SuccessLead|..|SuccessLead| + |event.key|] == event.key;
    assert (SuccessLead + event.key + tail)[|SuccessLead| + |event.key|..|SuccessLead| + |event.key| + |" from bucket " + event.bucket|]
        == " from bucket " + event.bucket;
    SuccessLead + event.key + " from bucket " + event.bucket + ". Summary: " + summary
  }

  /** The handler. `parse` stands for `json.loads` and the lookup of
      `results.items` with each item's fields; `summarize` stands for
      `bedrock_summarisation`. */
  method LambdaHandler(store: Storage, event: Event,
                       parse: string -> Result<seq<Item>, string>,
                       summarize: string -> Result<string, string>)
    returns (response: Option<Response>)
    modifies store`objects, store`getLog, store`putLog
    // skip: no result and no storage call at all
    ensures response.None? <==> !Contains(event.key, TranscriptMarker)
    ensures response.None? ==>
              store.objects == old(store.objects) && store.getLog == old(store.getLog) && store.putLog == old(store.putLog)
    // otherwise: exactly one read, of the object named by the event
    ensures response.Some? ==> store.getLog == old(store.getLog) + [ObjectRef(event.bucket, event.key)]
    ensures response.Some? ==> response.value.statusCode == 200 || response.value.statusCode == 500
    // failure: an error message, and storage as it was
    ensures response.Some? && response.value.statusCode == 500 ==>
              ErrorPrefix <= response.value.body && store.objects == old(store.objects)
    // success: exactly one write, of the summary, at the derived key
    ensures response.Some? && response.value.statusCode == 200 ==>
              var summary := Summary(old(store.objects), store.getDenied, event, parse, summarize);
              && summary.Success?
              && response.value.body == SuccessBody(event, summary.value)
              && store.putLog == old(store.putLog) + [PutRequest(ResultRef(event), summary.value, PlainText)]
              && store.objects == old(store.objects)[ResultRef(event) := StoredObject(summary.value, PlainText)]
    // which outcome happens
    ensures Contains(event.key, TranscriptMarker) ==>
              var summary := Summary(old(store.objects), store.getDenied, event, parse, summarize);
              && (summary.Failure? ==>
                    response == Some(Response(500, ErrorPrefix + summary.error)) && store.putLog == old(store.putLog))
              && (summary.Success? && event.bucket in store.putDenied ==>
                    && response == Some(Response(500, ErrorPrefix + AccessDenied))
                    && store.putLog == old(store.putLog) + [PutRequest(ResultRef(event), summary.value, PlainText)])
              && (summary.Success? && event.bucket !in store.putDenied ==> response.value.statusCode == 200)
  {
    var bucket, key := event.bucket, event.key;
    if !Contains(key, TranscriptMarker) {
      return None;
    }

    var fileContent := store.GetObject(ObjectRef(bucket, key));
    if fileContent.Failure? {
      return Some(Response(500, ErrorPrefix + fileContent.error));
    }
    var document := parse(fileContent.value);
    if document.Failure? {
      return Some(Response(500, ErrorPrefix + document.error));
    }
    var transcript := Extract(document.value);
    var summary := summarize(transcript);
    if summary.Failure? {
      return Some(Response(500, ErrorPrefix + summary.error));
    }

    var resultsKey := ResultsKeyFor(key);
    var written := store.PutObject(ObjectRef(bucket, resultsKey), summary.value, PlainText);
    if written.Failure? {
      return Some(Response(500, ErrorPrefix + written.error));
    }
    return Some(Response(200, SuccessBody(event, summary.value)));
  }
}
