/**
 * StatusFeedTracker: the per-feed state (cache validators and seen ids) and the three
 * steps of one polling cycle: the conditional fetch, the processing of a fetched
 * document, and the gate between them in the polling loop.
 */
module Tracker {
  import opened Wrappers
  import opened Html
  import opened Feed
  import opened Processing

  /** The two conditional request headers. */
  const IfNoneMatch := "If-None-Match"
  const IfModifiedSince := "If-Modified-Since"

  type Headers = map<string, string>

  /**
   * What the HTTP client's `get` ends in: an exception raised by the request itself
   * (a network error or anything else), or a response with its status, its `ETag` and
   * `Last-Modified` headers (None when absent) and its decoded body.
   */
  datatype Response =
    | RequestFailed
    | Reply(status: int, etag: Option<string>, lastModified: Option<string>, text: string)

  /** The statuses raise_for_status lets through: 2xx. */
  predicate IsSuccess(status: int)
  {
    200 <= status <= 299
  }

  /** The response carries fresh content: the one case where fetch_feed returns a body. */
  predicate Delivers(resp: Response)
  {
    resp.Reply? && IsSuccess(resp.status)
  }

  class StatusFeedTracker {
    const feedUrl: string
    const interval: int

    /** ETag and Last-Modified of the last response that carried content. */
    var etag: Option<string>
    var lastModified: Option<string>

    /** seen_entry_ids: the ids of every entry emitted so far. */
    var seen: set<string>

    constructor (feedUrl: string, interval: int)
      ensures this.feedUrl == feedUrl && this.interval == interval
      ensures etag == None && lastModified == None && seen == {}
    {
      this.feedUrl := feedUrl;
      this.interval := interval;
      etag := None;
      lastModified := None;
      seen := {};
    }

    /** The request headers of fetch_feed: one per validator that is present and non-empty. */
    method ConditionalHeaders() returns (headers: Headers)
      ensures IfNoneMatch in headers <==> Truthy(etag)
      ensures IfNoneMatch in headers ==> headers[IfNoneMatch] == etag.value
      ensures IfModifiedSince in headers <==> Truthy(lastModified)
      ensures IfModifiedSince in headers ==> headers[IfModifiedSince] == lastModified.value
      ensures headers.Keys <= {IfNoneMatch, IfModifiedSince}
    {
      headers := map[];
      if Truthy(etag) {
        headers := headers[IfNoneMatch := etag.value];
      }
      if Truthy(lastModified) {
        headers := headers[IfModifiedSince := lastModified.value];
      }
    }

    /**
     * fetch_feed, with the network as `server`: the response it gives to each set of
     * request headers. Returns the request headers sent and the body, if any.
     */
    method FetchFeed(server: Headers -> Response) returns (headers: Headers, body: Option<string>)
      modifies this`etag, this`lastModified
      ensures IfNoneMatch in headers <==> Truthy(old(etag))
      ensures IfNoneMatch in headers ==> headers[IfNoneMatch] == old(etag).value
      ensures IfModifiedSince in headers <==> Truthy(old(lastModified))
      ensures IfModifiedSince in headers ==> headers[IfModifiedSince] == old(lastModified).value
      ensures headers.Keys <= {IfNoneMatch, IfModifiedSince}
      ensures Delivers(server(headers)) ==>
        && body == Some(server(headers).text)
        && etag == server(headers).etag
        && lastModified == server(headers).lastModified
      ensures !Delivers(server(headers)) ==>
        body == None && etag == old(etag) && lastModified == old(lastModified)
    {
      headers := ConditionalHeaders();
      var response := server(headers);
      match response
      case RequestFailed =>
        body := None;
      case Reply(status, newEtag, newLastModified, text) =>
        if status == 304 {
          body := None;
        } else if !IsSuccess(status) {
          body := None;   // raise_for_status raised HTTPStatusError
        } else {
          etag := newEtag;
          lastModified := newLastModified;
          body := Some(text);
        }
    }

    /**
     * The first loop of process_entries: the list `new_entries` of records of the new,
     * dated entries, in feed order, or None when the datetime constructor raised.
     */
    method CollectNewEntries(entries: seq<Entry>) returns (newEntries: Option<seq<Incident>>)
      ensures newEntries == Collect(entries, seen)
    {
      var found: seq<Incident> := [];
      var i := 0;
      while i < |entries|
        invariant 0 <= i <= |entries|
        invariant Collect(entries[..i], seen) == Some(found)
      {
        var entry := entries[i];
        var entryId := ResolveId(entry);
        if entryId.None? {
          CollectSkip(entries, seen, i);
          i := i + 1;
          continue;
        }
        if entryId.value in seen {
          CollectSkip(entries, seen, i);
          i := i + 1;
          continue;
        }
        var entryTime := ExtractEntryTime(entry);
        if entryTime.Missing? {
          CollectSkip(entries, seen, i);
          i := i + 1;
          continue;
        }
        if entryTime.OutOfRange? {
          // datetime raised ValueError
          CollectRaises(entries, seen, i);
          return None;
        }
        var title := TitleOf(entry);
        var summary := StripHtml(entry.summary);
        var record := Incident(entryTime.time, title, summary, entryId.value);
        CollectKeep(entries, seen, i, found, record);
        found := found + [record];
        i := i + 1;
      }
      assert entries[..i] == entries;
      return Some(found);
    }

    /**
     * The second loop of process_entries: emits each record in turn (the log line) and
     * adds its id to the seen set right after.
     */
    method Report(records: seq<Incident>) returns (emitted: seq<Incident>)
      modifies this`seen
      ensures emitted == records
      ensures seen == old(seen) + IdsOf(records)
    {
      emitted := [];
      var j := 0;
      while j < |records|
        invariant 0 <= j <= |records|
        invariant emitted == records[..j]
        invariant seen == old(seen) + IdsOf(emitted)
      {
        IdsOfSnoc(emitted, records[j]);
        assert records[..j + 1] == records[..j] + [records[j]];
        emitted := emitted + [records[j]];
        seen := seen + {records[j].id};
        j := j + 1;
      }
      assert records[..j] == records;
    }

    /**
     * process_entries on the entries the parser produced: emits the new, dated entries
     * oldest first and records each id right after its record is emitted. When the
     * datetime constructor raises, the handler around the whole call swallows the error
     * and nothing is emitted.
     */
    method ProcessEntries(entries: seq<Entry>) returns (emitted: seq<Incident>)
      modifies this`seen
      ensures emitted == Emitted(entries, old(seen))
      ensures seen == old(seen) + IdsOf(emitted)
    {
      var newEntries := CollectNewEntries(entries);
      if newEntries.None? {
        assert IdsOf([]) == {};
        return [];
      }
      var sorted := StableSort(newEntries.value);
      emitted := Report(sorted);
    }

    /**
     * One pass of the polling loop in run: fetch, and process only a body that is present
     * and non-empty. `parse` stands for the feed parser.
     */
    method PollOnce(server: Headers -> Response, parse: string -> seq<Entry>)
      returns (headers: Headers, emitted: seq<Incident>)
      modifies this`etag, this`lastModified, this`seen
      ensures headers.Keys <= {IfNoneMatch, IfModifiedSince}
      ensures IfNoneMatch in headers <==> Truthy(old(etag))
      ensures IfNoneMatch in headers ==> headers[IfNoneMatch] == old(etag).value
      ensures IfModifiedSince in headers <==> Truthy(old(lastModified))
      ensures IfModifiedSince in headers ==> headers[IfModifiedSince] == old(lastModified).value
      ensures Delivers(server(headers)) ==>
        etag == server(headers).etag && lastModified == server(headers).lastModified
      ensures !Delivers(server(headers)) ==>
        etag == old(etag) && lastModified == old(lastModified)
      ensures Delivers(server(headers)) && server(headers).text != "" ==>
        && emitted == Emitted(parse(server(headers).text), old(seen))
        && seen == old(seen) + IdsOf(emitted)
      ensures !(Delivers(server(headers)) && server(headers).text != "") ==>
        emitted == [] && seen == old(seen)
    {
      var feedData;
      headers, feedData := FetchFeed(server);
      if feedData.Some? && feedData.value != "" {
        emitted := ProcessEntries(parse(feedData.value));
      } else {
        emitted := [];
      }
    }
  }
}
