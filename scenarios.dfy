/** Concrete runs of the model: the tag-stripping example, the chronological-order example, the same-id example and the end-to-end example. */
module Scenarios {
  import opened Wrappers
  import opened Html
  import opened Feed
  import opened Processing
  import opened Tracker

  /** A struct_time for the given day and time (the trailing three fields are ignored). */
  function At(year: int, month: int, day: int, hour: int, minute: int): TimeStruct
  {
    TimeStruct(year, month, day, hour, minute, 0, 0, 1, 0)
  }

  function Dated(id: string, t: TimeStruct): Entry
  {
    Entry(Some(id), None, Some("Service"), None, Some(t), None)
  }

  function Record(id: string, t: TimeStruct): Incident
  {
    Incident(FirstSix(t), "Service", "", id)
  }

  /** A dated entry with a new, non-empty id passes all three checks and yields its record. */
  lemma ScreenDated(id: string, t: TimeStruct, seen: set<string>)
    requires id != "" && id !in seen && IsValid(FirstSix(t))
    ensures Screen(Dated(id, t), seen) == Keep(Record(id, t))
  {
  }

  /** 1 May 2024 at the given hour. */
  function Hour(h: int): TimeStruct
  {
    At(2024, 5, 1, h, 0)
  }

  /** A batch of dated entries with new, non-empty ids yields their records in feed order. */
  lemma ThreeCandidates(ids: seq<string>, hours: seq<int>)
    requires |ids| == 3 && |hours| == 3
    requires forall k :: 0 <= k < 3 ==> ids[k] != "" && 0 <= hours[k] <= 23
    ensures Collect([Dated(ids[0], Hour(hours[0])), Dated(ids[1], Hour(hours[1])), Dated(ids[2], Hour(hours[2]))], {})
         == Some([Record(ids[0], Hour(hours[0])), Record(ids[1], Hour(hours[1])), Record(ids[2], Hour(hours[2]))])
  {
    var entries := [Dated(ids[0], Hour(hours[0])), Dated(ids[1], Hour(hours[1])), Dated(ids[2], Hour(hours[2]))];
    var found := [Record(ids[0], Hour(hours[0])), Record(ids[1], Hour(hours[1])), Record(ids[2], Hour(hours[2]))];
    ScreenDated(ids[0], Hour(hours[0]), {});
    ScreenDated(ids[1], Hour(hours[1]), {});
    ScreenDated(ids[2], Hour(hours[2]), {});
    CollectSnoc([], entries[0], {}, [], found[0]);
    assert entries[..1] == [] + [entries[0]] && found[..1] == [] + [found[0]];
    CollectSnoc(entries[..1], entries[1], {}, found[..1], found[1]);
    assert entries[..2] == entries[..1] + [entries[1]] && found[..2] == found[..1] + [found[1]];
    CollectSnoc(entries[..2], entries[2], {}, found[..2], found[2]);
    assert entries[..2] + [entries[2]] == entries && found[..2] + [found[2]] == found;
  }

  /** Two dated entries with non-empty ids, new to the seen set, yield their records in feed order. */
  lemma TwoCandidates(id0: string, h0: int, id1: string, h1: int)
    requires id0 != "" && id1 != "" && 0 <= h0 <= 23 && 0 <= h1 <= 23
    ensures Collect([Dated(id0, Hour(h0)), Dated(id1, Hour(h1))], {})
         == Some([Record(id0, Hour(h0)), Record(id1, Hour(h1))])
  {
    var entries := [Dated(id0, Hour(h0)), Dated(id1, Hour(h1))];
    var found := [Record(id0, Hour(h0)), Record(id1, Hour(h1))];
    ScreenDated(id0, Hour(h0), {});
    ScreenDated(id1, Hour(h1), {});
    CollectSnoc([], entries[0], {}, [], found[0]);
    assert entries[..1] == [] + [entries[0]] && found[..1] == [] + [found[0]];
    CollectSnoc(entries[..1], entries[1], {}, found[..1], found[1]);
    assert entries[..1] + [entries[1]] == entries && found[..1] + [found[1]] == found;
  }

  /** Timestamps T3, T1, T2 in feed order are emitted as T1, T2, T3. */
  lemma ChronologicalExample(a: string, b: string, c: string)
    requires a == "a" && b == "b" && c == "c"
    ensures Emitted([Dated(c, Hour(12)), Dated(a, Hour(10)), Dated(b, Hour(11))], {})
         == [Record(a, Hour(10)), Record(b, Hour(11)), Record(c, Hour(12))]
  {
    ThreeCandidates([c, a, b], [12, 10, 11]);
    ChronologicalSort(a, b, c);
  }

  lemma ChronologicalSort(a: string, b: string, c: string)
    ensures StableSort([Record(c, Hour(12)), Record(a, Hour(10)), Record(b, Hour(11))])
         == [Record(a, Hour(10)), Record(b, Hour(11)), Record(c, Hour(12))]
  {
    var found := [Record(c, Hour(12)), Record(a, Hour(10)), Record(b, Hour(11))];
    var r := [Record(a, Hour(10)), Record(b, Hour(11)), Record(c, Hour(12))];
    assert multiset(r) == multiset(found);
    DistinctTimesOrder(found, r);
  }

  /**
   * Two entries of one batch with the same new id are both emitted: the seen set is
   * consulted as it was before the batch.
   */
  lemma SameIdTwiceExample(a: string)
    requires a == "a"
    ensures Emitted([Dated(a, Hour(10)), Dated(a, Hour(11))], {}) == [Record(a, Hour(10)), Record(a, Hour(11))]
  {
    TwoCandidates(a, 10, a, 11);
    DistinctTimesOrder([Record(a, Hour(10)), Record(a, Hour(11))], [Record(a, Hour(10)), Record(a, Hour(11))]);
  }

  /** The first cycle of the end-to-end scenario: a at 10:00 and b at 09:00 come out as b, a. */
  lemma FirstCycle(a: string, b: string)
    requires a == "a" && b == "b"
    ensures Emitted([Dated(a, Hour(10)), Dated(b, Hour(9))], {}) == [Record(b, Hour(9)), Record(a, Hour(10))]
  {
    TwoCandidates(a, 10, b, 9);
    FirstCycleSort(a, b);
  }

  lemma FirstCycleSort(a: string, b: string)
    ensures StableSort([Record(a, Hour(10)), Record(b, Hour(9))]) == [Record(b, Hour(9)), Record(a, Hour(10))]
  {
    var found := [Record(a, Hour(10)), Record(b, Hour(9))];
    var r := [Record(b, Hour(9)), Record(a, Hour(10))];
    assert multiset(r) == multiset(found);
    DistinctTimesOrder(found, r);
  }

  lemma IdsOfPair(x: Incident, y: Incident)
    ensures IdsOf([x, y]) == {x.id, y.id}
  {
  }

  /**
   * The end-to-end scenario: a new tracker sees entries a (10:00) and b (09:00); the first
   * cycle emits b then a and records both ids, the second cycle on the same entries emits
   * nothing.
   */
  method EndToEnd(a: string, b: string) returns (first: seq<Incident>, second: seq<Incident>, recorded: set<string>)
    requires a == "a" && b == "b"
    ensures first == [Record(b, Hour(9)), Record(a, Hour(10))]
    ensures recorded == {a, b}
    ensures second == []
  {
    var entries := [Dated(a, Hour(10)), Dated(b, Hour(9))];
    var tracker := new StatusFeedTracker("feed", 60);
    FirstCycle(a, b);
    IdsOfPair(Record(b, Hour(9)), Record(a, Hour(10)));
    first := tracker.ProcessEntries(entries);
    recorded := tracker.seen;
    ReprocessingEmitsNothing(entries, {});
    second := tracker.ProcessEntries(entries);
  }

  predicate NoOpenBracket(s: string)
  {
    forall k :: 0 <= k < |s| ==> s[k] != '<'
  }

  predicate OneLineTag(tag: string)
  {
    forall k :: 0 <= k < |tag| ==> tag[k] != '>' && tag[k] != '\n'
  }

  /** A one-line tag followed by a word: the tag goes, the word stays. */
  lemma TagThenWord(tag: string, word: string, rest: string)
    requires OneLineTag(tag) && NoOpenBracket(word)
    ensures StripTags("<" + tag + ">" + word + rest) == word + StripTags(rest)
  {
    assert "<" + tag + ">" + word + rest == "<" + tag + ">" + (word + rest);
    DeletesSingleLineTag(tag, word + rest);
    KeepsPlainText(word, rest);
  }

  /** A one-line tag on its own is deleted entirely. */
  lemma LoneTag(tag: string)
    requires OneLineTag(tag)
    ensures StripTags("<" + tag + ">") == ""
  {
    assert "<" + tag + ">" == "<" + tag + ">" + "";
    DeletesSingleLineTag(tag, "");
  }

  /**
   * Three words inside four one-line tags, `<p>w1<b>w2</b>w3</p>` in shape: the tags go
   * and the words stay, joined as they were. s0 to s3 are the successive suffixes.
   */
  lemma TagStrippingShape(p: string, b: string, eb: string, ep: string,
                          w1: string, w2: string, w3: string,
                          s0: string, s1: string, s2: string, s3: string)
    requires OneLineTag(p) && OneLineTag(b) && OneLineTag(eb) && OneLineTag(ep)
    requires NoOpenBracket(w1) && NoOpenBracket(w2) && NoOpenBracket(w3)
    requires s3 == "<" + ep + ">"
    requires s2 == "<" + eb + ">" + w3 + s3
    requires s1 == "<" + b + ">" + w2 + s2
    requires s0 == "<" + p + ">" + w1 + s1
    ensures StripTags(s0) == w1 + w2 + w3
  {
    LoneTag(ep);
    TagThenWord(eb, w3, s3);
    TagThenWord(b, w2, s2);
    TagThenWord(p, w1, s1);
    assert StripTags(s0) == w1 + (w2 + w3);
  }

  /** The tags of the tag-stripping example go and its three words stay. */
  lemma ExampleTags(service: string, x: string, degraded: string)
    requires service == "Service " && x == "X" && degraded == " degraded"
    ensures StripTags("<p>" + service + "<b>" + x + "</b>" + degraded + "</p>") == service + x + degraded
  {
    var s3 := "<" + "/p" + ">";
    var s2 := "<" + "/b" + ">" + degraded + s3;
    var s1 := "<" + "b" + ">" + x + s2;
    var s0 := "<" + "p" + ">" + service + s1;
    TagStrippingShape("p", "b", "/b", "/p", service, x, degraded, s0, s1, s2, s3);
    assert "<p>" + service + "<b>" + x + "</b>" + degraded + "</p>" == s0;
  }

  /** The words of the tag-stripping example have nothing to strip at either end. */
  lemma ExampleWords(service: string, x: string, degraded: string)
    requires service == "Service " && x == "X" && degraded == " degraded"
    ensures service + x + degraded == "Service X degraded"
    ensures Strip(service + x + degraded) == service + x + degraded
  {
    var t := service + x + degraded;
    assert t[0] == 'S' && t[|t| - 1] == 'd';
    StripOfTrimmed(t);
  }

  /**
   * The tag-stripping example: strip_html("<p>Service <b>X</b> degraded</p>") is
   * "Service X degraded". The input is written with its three words named.
   */
  lemma TagStrippingExample(service: string, x: string, degraded: string)
    requires service == "Service " && x == "X" && degraded == " degraded"
    ensures StripHtml(Some("<p>" + service + "<b>" + x + "</b>" + degraded + "</p>")) == "Service X degraded"
  {
    ExampleTags(service, x, degraded);
    ExampleWords(service, x, degraded);
  }
}
