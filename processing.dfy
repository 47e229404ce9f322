/**
 * What process_entries computes, as functions of the entries and of the seen-id set at the
 * start of the call: which entries become candidates, the order they are emitted in, and
 * which ids are recorded afterwards.
 */
module Processing {
  import opened Wrappers
  import opened Html
  import opened Feed

  /** The title used when an entry has no "title" key. */
  const UnknownService := "Unknown Service"

  /** One emitted record: the tuple (entry_time, title, summary, entry_id). */
  datatype Incident = Incident(time: DateTime, title: string, summary: string, id: string)

  /** `entry.get("id") or entry.get("link")`: the dedup key, or None when the entry has none. */
  function ResolveId(e: Entry): (r: Option<string>)
    ensures r.Some? <==> Truthy(e.id) || Truthy(e.link)
    ensures r.Some? ==> r.value != ""
    ensures Truthy(e.id) ==> r == e.id
    ensures !Truthy(e.id) && r.Some? ==> r == e.link
  {
    if Truthy(e.id) then e.id else if Truthy(e.link) then e.link else None
  }

  /** `entry.get("title", "Unknown Service")`: the default applies only to a missing key. */
  function TitleOf(e: Entry): (r: string)
    ensures e.title.Some? ==> r == e.title.value
    ensures e.title.None? ==> r == UnknownService
  {
    match e.title
    case Some(t) => t
    case None => UnknownService
  }

  /** What the first loop of process_entries does with one entry. */
  datatype Verdict =
    | Skip               // `continue`: no id, an id already seen, or no time
    | Keep(incident: Incident)
    | Raise              // the datetime constructor raised: the whole call is abandoned

  /** One iteration of the first loop of process_entries, against the seen set `seen`. */
  function Screen(e: Entry, seen: set<string>): (v: Verdict)
    ensures v.Skip? <==>
      ResolveId(e).None? || ResolveId(e).value in seen || ExtractEntryTime(e).Missing?
    ensures v.Raise? <==>
      ResolveId(e).Some? && ResolveId(e).value !in seen && ExtractEntryTime(e).OutOfRange?
    ensures v.Keep? ==>
      && ResolveId(e) == Some(v.incident.id)
      && v.incident.id !in seen
      && ExtractEntryTime(e) == Found(v.incident.time)
      && v.incident.title == TitleOf(e)
      && v.incident.summary == StripHtml(e.summary)
  {
    var id := ResolveId(e);
    if id.None? || id.value in seen then Skip
    else
      match ExtractEntryTime(e)
      case Missing => Skip
      case OutOfRange => Raise
      case Found(t) => Keep(Incident(t, TitleOf(e), StripHtml(e.summary), id.value))
  }

  /**
   * The list `new_entries` built by the first loop, in feed order; None when some
   * entry makes the loop raise.
   */
  function Collect(entries: seq<Entry>, seen: set<string>): (r: Option<seq<Incident>>)
    ensures r.Some? ==> |r.value| <= |entries|
    decreases |entries|
  {
    if entries == [] then Some([])
    else
      match Collect(entries[..|entries| - 1], seen)
      case None => None
      case Some(c) =>
        match Screen(entries[|entries| - 1], seen)
        case Skip => Some(c)
        case Keep(x) => Some(c + [x])
        case Raise => None
  }

  /** An entry the first loop skips adds no candidate. */
  lemma CollectSkip(entries: seq<Entry>, seen: set<string>, i: nat)
    requires i < |entries| && Screen(entries[i], seen).Skip?
    ensures Collect(entries[..i + 1], seen) == Collect(entries[..i], seen)
  {
    assert entries[..i + 1][..i] == entries[..i];
  }

  /** An entry the first loop keeps adds its record at the back. */
  lemma CollectKeep(entries: seq<Entry>, seen: set<string>, i: nat, c: seq<Incident>, x: Incident)
    requires i < |entries| && Screen(entries[i], seen) == Keep(x)
    requires Collect(entries[..i], seen) == Some(c)
    ensures Collect(entries[..i + 1], seen) == Some(c + [x])
  {
    assert entries[..i + 1][..i] == entries[..i];
  }

  /** The candidates of a batch are those of its first part followed by those of the rest. */
  lemma {:induction false} CollectAppend(a: seq<Entry>, b: seq<Entry>, seen: set<string>)
    ensures Collect(a + b, seen) ==
      if Collect(a, seen).Some? && Collect(b, seen).Some?
      then Some(Collect(a, seen).value + Collect(b, seen).value)
      else None
    decreases |b|
  {
    if b == [] {
      assert a + b == a;
      if Collect(a, seen).Some? {
        assert Collect(a, seen).value + [] == Collect(a, seen).value;
      }
    } else {
      var init := b[..|b| - 1];
      assert (a + b)[..|a + b| - 1] == a + init;
      assert (a + b)[|a + b| - 1] == b[|b| - 1];
      CollectAppend(a, init, seen);
      if Collect(a, seen).Some? && Collect(init, seen).Some? {
        var ca, ci := Collect(a, seen).value, Collect(init, seen).value;
        match Screen(b[|b| - 1], seen)
        case Skip =>
        case Keep(x) => assert ca + (ci + [x]) == (ca + ci) + [x];
        case Raise =>
      }
    }
  }

  /** One entry that makes the datetime constructor raise abandons the whole batch. */
  lemma {:induction false} CollectRaises(entries: seq<Entry>, seen: set<string>, i: nat)
    requires i < |entries| && Screen(entries[i], seen).Raise?
    ensures Collect(entries, seen).None?
  {
    var a, b := entries[..i + 1], entries[i + 1..];
    assert entries == a + b;
    assert a[..i] == entries[..i];
    CollectAppend(a, b, seen);
  }

  /** Without such an entry the loop runs to the end. */
  lemma {:induction false} CollectCompletes(entries: seq<Entry>, seen: set<string>)
    requires forall i :: 0 <= i < |entries| ==> !Screen(entries[i], seen).Raise?
    ensures Collect(entries, seen).Some?
    decreases |entries|
  {
    if entries != [] {
      var init := entries[..|entries| - 1];
      assert forall i :: 0 <= i < |init| ==> init[i] == entries[i];
      CollectCompletes(init, seen);
    }
  }

  /** Every candidate is the record of some entry of the batch that passes all three checks. */
  lemma {:induction false} CollectSource(entries: seq<Entry>, seen: set<string>, x: Incident) returns (i: nat)
    requires Collect(entries, seen).Some? && x in Collect(entries, seen).value
    ensures i < |entries| && Screen(entries[i], seen) == Keep(x)
    decreases |entries|
  {
    var init := entries[..|entries| - 1];
    var c := Collect(init, seen).value;
    if x in c {
      i := CollectSource(init, seen, x);
      assert init[i] == entries[i];
    } else {
      i := |entries| - 1;
    }
  }

  /** Every entry that passes all three checks is a candidate. */
  lemma {:induction false} CollectComplete(entries: seq<Entry>, seen: set<string>, i: nat)
    requires Collect(entries, seen).Some?
    requires i < |entries| && Screen(entries[i], seen).Keep?
    ensures Screen(entries[i], seen).incident in Collect(entries, seen).value
    decreases |entries|
  {
    var init := entries[..|entries| - 1];
    if i < |entries| - 1 {
      assert init[i] == entries[i];
      CollectComplete(init, seen, i);
    }
  }

  /** Emission order: timestamps never decrease. */
  predicate Sorted(s: seq<Incident>)
  {
    forall i, j :: 0 <= i < j < |s| ==> NotAfter(s[i].time, s[j].time)
  }

  /** The incidents of s stamped exactly t, in the order they have in s. */
  function WithTime(s: seq<Incident>, t: DateTime): seq<Incident>
  {
    if s == [] then []
    else WithTime(s[..|s| - 1], t) + (if s[|s| - 1].time == t then [s[|s| - 1]] else [])
  }

  /** Places x after every incident of s not later than x, and before the later ones at the back. */
  function Insert(s: seq<Incident>, x: Incident): (r: seq<Incident>)
    ensures multiset(r) == multiset(s) + multiset{x}
    decreases |s|
  {
    if s == [] || NotAfter(s[|s| - 1].time, x.time) then s + [x]
    else
      assert s == s[..|s| - 1] + [s[|s| - 1]];
      Insert(s[..|s| - 1], x) + [s[|s| - 1]]
  }

  /** Inserting into a sorted sequence keeps it sorted. */
  lemma {:induction false} InsertSorted(s: seq<Incident>, x: Incident)
    requires Sorted(s)
    ensures Sorted(Insert(s, x))
    decreases |s|
  {
    if s == [] || NotAfter(s[|s| - 1].time, x.time) {
      forall i | 0 <= i < |s| ensures NotAfter(s[i].time, x.time) {
        NotAfterTotalOrder(s[i].time, s[|s| - 1].time, x.time);
      }
    } else {
      var init, last := s[..|s| - 1], s[|s| - 1];
      InsertSorted(init, x);
      var m := Insert(init, x);
      NotAfterTotalOrder(x.time, last.time, x.time);
      forall i | 0 <= i < |m| ensures NotAfter(m[i].time, last.time) {
        assert m[i] in multiset(m);
        if m[i] != x {
          assert m[i] in multiset(init);
          var k :| 0 <= k < |init| && init[k] == m[i];
          assert NotAfter(s[k].time, s[|s| - 1].time);
        }
      }
      assert Insert(s, x) == m + [last];
    }
  }

  /** x joins the back of its own timestamp's group; no other group changes. */
  lemma {:induction false} InsertWithTime(s: seq<Incident>, x: Incident, t: DateTime)
    ensures WithTime(Insert(s, x), t) == WithTime(s, t) + (if x.time == t then [x] else [])
    decreases |s|
  {
    if s == [] || NotAfter(s[|s| - 1].time, x.time) {
      assert (s + [x])[..|s|] == s;
    } else {
      var init, last := s[..|s| - 1], s[|s| - 1];
      var m := Insert(init, x);
      InsertWithTime(init, x, t);
      NotAfterTotalOrder(x.time, last.time, x.time);
      assert (m + [last])[..|m|] == m;
      assert Insert(s, x) == m + [last];
      assert x.time != last.time;
    }
  }

  /**
   * `new_entries.sort(key=lambda x: x[0])`: ascending by time, and a stable sort, so the
   * incidents sharing a timestamp stay in the order they came in.
   */
  function StableSort(c: seq<Incident>): (r: seq<Incident>)
    ensures Sorted(r)
    ensures multiset(r) == multiset(c)
    ensures forall t :: WithTime(r, t) == WithTime(c, t)
    decreases |c|
  {
    if c == [] then []
    else
      var init, last := c[..|c| - 1], c[|c| - 1];
      var sorted := StableSort(init);
      InsertSorted(sorted, last);
      forall t ensures WithTime(Insert(sorted, last), t) == WithTime(c, t) {
        InsertWithTime(sorted, last, t);
      }
      assert c == init + [last];
      Insert(sorted, last)
  }

  /**
   * A sorted sequence is fixed by what it holds at each timestamp: any stable sort of c
   * (Python's list.sort among them) returns exactly StableSort(c).
   */
  lemma {:induction false} StableSortUnique(a: seq<Incident>, b: seq<Incident>)
    requires Sorted(a) && Sorted(b)
    requires forall t :: WithTime(a, t) == WithTime(b, t)
    ensures a == b
    decreases |a| + |b|
  {
    if a == [] && b == [] {
    } else if a == [] {
      WithTimeOfLast(b);
    } else if b == [] {
      WithTimeOfLast(a);
    } else {
      var ta, tb := a[|a| - 1].time, b[|b| - 1].time;
      LastTimeIsLatest(a, tb);
      LastTimeIsLatest(b, ta);
      NotAfterTotalOrder(ta, tb, ta);
      assert ta == tb;
      var a', b' := a[..|a| - 1], b[..|b| - 1];
      assert a[..|a| - 1] == a' && b[..|b| - 1] == b';
      assert a[|a| - 1] == b[|b| - 1] by {
        var wa, wb := WithTime(a, ta), WithTime(b, ta);
        assert wa == wb;
        assert wa == WithTime(a', ta) + [a[|a| - 1]];
        assert wb == WithTime(b', ta) + [b[|b| - 1]];
        assert wa[|wa| - 1] == a[|a| - 1] && wb[|wb| - 1] == b[|b| - 1];
      }
      forall t ensures WithTime(a', t) == WithTime(b', t) {
        var wa, wb := WithTime(a, t), WithTime(b, t);
        assert wa == wb;
        assert wa == WithTime(a', t) + (if ta == t then [a[|a| - 1]] else []);
        assert wb == WithTime(b', t) + (if ta == t then [a[|a| - 1]] else []);
        assert WithTime(a', t) == wa[..|WithTime(a', t)|];
      }
      StableSortUnique(a', b');
      assert a == a' + [a[|a| - 1]] && b == b' + [b[|b| - 1]];
    }
  }

  /** The last element's timestamp group is not empty. */
  lemma WithTimeOfLast(s: seq<Incident>)
    requires s != []
    ensures WithTime(s, s[|s| - 1].time) != []
  {
  }

  /** In a sorted sequence, a timestamp that occurs is not after the last one. */
  lemma {:induction false} LastTimeIsLatest(s: seq<Incident>, t: DateTime)
    requires Sorted(s) && s != [] && WithTime(s, t) != []
    ensures NotAfter(t, s[|s| - 1].time)
  {
    var k := WithTimeWitness(s, t);
    if k < |s| - 1 {
      assert NotAfter(s[k].time, s[|s| - 1].time);
    } else {
      NotAfterTotalOrder(t, t, t);
    }
  }

  /** Some element of s carries each timestamp that WithTime finds. */
  lemma {:induction false} WithTimeWitness(s: seq<Incident>, t: DateTime) returns (k: nat)
    requires WithTime(s, t) != []
    ensures k < |s| && s[k].time == t
    decreases |s|
  {
    if s[|s| - 1].time == t {
      k := |s| - 1;
    } else {
      assert WithTime(s, t) == WithTime(s[..|s| - 1], t);
      k := WithTimeWitness(s[..|s| - 1], t);
    }
  }

  /** Each incident of s stamped t is in WithTime(s, t) as many times as in s, and nothing else is. */
  lemma {:induction false} WithTimeCount(s: seq<Incident>, t: DateTime, x: Incident)
    ensures multiset(WithTime(s, t))[x] == if x.time == t then multiset(s)[x] else 0
    decreases |s|
  {
    if s != [] {
      var init, last := s[..|s| - 1], s[|s| - 1];
      WithTimeCount(init, t, x);
      assert s == init + [last];
    }
  }

  /** No two incidents of s share a timestamp. */
  predicate DistinctTimes(s: seq<Incident>)
  {
    forall i, j :: 0 <= i < j < |s| ==> s[i].time != s[j].time
  }

  /** Without shared timestamps, every group has at most one incident. */
  lemma {:induction false} WithTimeOfDistinct(s: seq<Incident>, t: DateTime)
    requires DistinctTimes(s)
    ensures |WithTime(s, t)| <= 1
    decreases |s|
  {
    if s != [] {
      var init := s[..|s| - 1];
      assert DistinctTimes(init) by {
        forall i, j | 0 <= i < j < |init| ensures init[i].time != init[j].time {
          assert init[i] == s[i] && init[j] == s[j];
        }
      }
      WithTimeOfDistinct(init, t);
      if s[|s| - 1].time == t && WithTime(init, t) != [] {
        var k := WithTimeWitness(init, t);
      }
    }
  }

  /** Rearranging a sequence rearranges each of its timestamp groups. */
  lemma GroupsPermuted(r: seq<Incident>, c: seq<Incident>, t: DateTime)
    requires multiset(r) == multiset(c)
    ensures multiset(WithTime(r, t)) == multiset(WithTime(c, t))
  {
    forall x ensures multiset(WithTime(r, t))[x] == multiset(WithTime(c, t))[x] {
      WithTimeCount(r, t, x);
      WithTimeCount(c, t, x);
    }
  }

  /** Two sequences of at most one element with the same elements are equal. */
  lemma ShortPermutation(u: seq<Incident>, v: seq<Incident>)
    requires multiset(u) == multiset(v) && |v| <= 1
    ensures u == v
  {
    assert |u| == |multiset(u)| == |multiset(v)| == |v|;
    if v != [] {
      assert u[0] in multiset(v);
      assert u == [u[0]] && v == [v[0]];
    }
  }

  /** A rearrangement of incidents with distinct timestamps has the same timestamp groups. */
  lemma SameGroups(r: seq<Incident>, c: seq<Incident>, t: DateTime)
    requires multiset(r) == multiset(c) && DistinctTimes(c)
    ensures WithTime(r, t) == WithTime(c, t)
  {
    GroupsPermuted(r, c, t);
    WithTimeOfDistinct(c, t);
    ShortPermutation(WithTime(r, t), WithTime(c, t));
  }

  /**
   * When no two incidents share a timestamp, the stable sort returns the one ascending
   * arrangement: timestamps [T3, T1, T2] in feed order come out as [T1, T2, T3].
   */
  lemma DistinctTimesOrder(c: seq<Incident>, r: seq<Incident>)
    requires DistinctTimes(c) && Sorted(r) && multiset(r) == multiset(c)
    ensures StableSort(c) == r
  {
    forall t ensures WithTime(r, t) == WithTime(StableSort(c), t) {
      SameGroups(r, c, t);
    }
    StableSortUnique(r, StableSort(c));
  }

  /** An entry that passes all three checks, appended to a batch, appends its record to the candidates. */
  lemma CollectSnoc(init: seq<Entry>, e: Entry, seen: set<string>, c: seq<Incident>, x: Incident)
    requires Collect(init, seen) == Some(c) && Screen(e, seen) == Keep(x)
    ensures Collect(init + [e], seen) == Some(c + [x])
  {
  }

  /** Two entries of one batch that both pass the checks both become candidates. */
  lemma CollectBoth(entries: seq<Entry>, seen: set<string>, i: nat, j: nat)
    requires i < j < |entries| && Collect(entries, seen).Some?
    requires Screen(entries[i], seen).Keep? && Screen(entries[j], seen).Keep?
    ensures multiset{Screen(entries[i], seen).incident, Screen(entries[j], seen).incident}
         <= multiset(Collect(entries, seen).value)
  {
    var a, b := entries[..j], entries[j..];
    assert entries == a + b;
    CollectAppend(a, b, seen);
    var ca, cb := Collect(a, seen).value, Collect(b, seen).value;
    assert a[i] == entries[i];
    CollectComplete(a, seen, i);
    assert b[0] == entries[j];
    CollectComplete(b, seen, 0);
    assert multiset(ca + cb) == multiset(ca) + multiset(cb);
  }

  /**
   * Two entries of one batch that both pass the checks are both emitted, even when they
   * carry the same id or yield the same record: the checks consult the seen set as it
   * was before the batch.
   */
  lemma BothEmitted(entries: seq<Entry>, seen: set<string>, i: nat, j: nat)
    requires i < j < |entries| && Collect(entries, seen).Some?
    requires Screen(entries[i], seen).Keep? && Screen(entries[j], seen).Keep?
    ensures multiset{Screen(entries[i], seen).incident, Screen(entries[j], seen).incident}
         <= multiset(Emitted(entries, seen))
  {
    CollectBoth(entries, seen, i, j);
  }

  /** The records process_entries emits, in order, for `entries` and the seen set `seen`. */
  function Emitted(entries: seq<Entry>, seen: set<string>): (r: seq<Incident>)
    ensures Sorted(r)
    ensures Collect(entries, seen).None? ==> r == []
    ensures Collect(entries, seen).Some? ==> multiset(r) == multiset(Collect(entries, seen).value)
    ensures Collect(entries, seen).Some? ==>
      forall t :: WithTime(r, t) == WithTime(Collect(entries, seen).value, t)
  {
    match Collect(entries, seen)
    case None => []
    case Some(c) => StableSort(c)
  }

  /**
   * Each emitted record comes from an entry of the batch that has an id, a time, and an
   * id outside the seen set the call started with.
   */
  lemma EmittedSource(entries: seq<Entry>, seen: set<string>, x: Incident) returns (i: nat)
    requires x in Emitted(entries, seen)
    ensures i < |entries| && Screen(entries[i], seen) == Keep(x)
    ensures ResolveId(entries[i]) == Some(x.id) && x.id !in seen
    ensures ExtractEntryTime(entries[i]) == Found(x.time)
  {
    assert x in multiset(Emitted(entries, seen));
    i := CollectSource(entries, seen, x);
  }

  /** The ids recorded in the seen set once `s` has been emitted. */
  function IdsOf(s: seq<Incident>): set<string>
  {
    set x | x in s :: x.id
  }

  /** Emitting one more record records one more id. */
  lemma IdsOfSnoc(s: seq<Incident>, x: Incident)
    ensures IdsOf(s + [x]) == IdsOf(s) + {x.id}
  {
  }

  /** Against a larger seen set, an entry can only drop out: what it yields otherwise is unchanged. */
  lemma ScreenMonotone(e: Entry, seen: set<string>, more: set<string>)
    requires seen <= more
    ensures Screen(e, more).Raise? ==> Screen(e, seen).Raise?
    ensures Screen(e, more).Keep? ==> Screen(e, seen) == Screen(e, more)
  {
  }

  /**
   * Processing the same entries again, against the seen set enlarged by what the first
   * call emitted, emits nothing.
   */
  lemma ReprocessingEmitsNothing(entries: seq<Entry>, seen: set<string>)
    ensures Emitted(entries, seen + IdsOf(Emitted(entries, seen))) == []
  {
    var r1 := Emitted(entries, seen);
    var seen2 := seen + IdsOf(r1);
    if Collect(entries, seen).None? {
      assert IdsOf(r1) == {};
      assert seen2 == seen;
    } else {
      forall i | 0 <= i < |entries| ensures !Screen(entries[i], seen2).Raise? {
        ScreenMonotone(entries[i], seen, seen2);
        if Screen(entries[i], seen).Raise? {
          CollectRaises(entries, seen, i);
        }
      }
      CollectCompletes(entries, seen2);
      var r2 := Emitted(entries, seen2);
      if r2 != [] {
        var x := r2[0];
        EmittedShrinks(entries, seen, seen2, x);
        var i := EmittedSource(entries, seen2, x);
      }
    }
  }

  /** A record emitted against a larger seen set is also emitted against a smaller one. */
  lemma EmittedShrinks(entries: seq<Entry>, seen: set<string>, more: set<string>, x: Incident)
    requires seen <= more && Collect(entries, seen).Some?
    requires x in Emitted(entries, more)
    ensures x in Emitted(entries, seen)
  {
    var i := EmittedSource(entries, more, x);
    ScreenMonotone(entries[i], seen, more);
    CollectComplete(entries, seen, i);
    var r := Emitted(entries, seen);
    assert x in multiset(r);
  }

  /** An id that only entries without a time carry is never recorded. */
  lemma UndatedIdNotRecorded(entries: seq<Entry>, seen: set<string>, id: string)
    requires forall i :: 0 <= i < |entries| && ResolveId(entries[i]) == Some(id) ==>
      ExtractEntryTime(entries[i]).Missing?
    ensures id !in IdsOf(Emitted(entries, seen))
  {
    if id in IdsOf(Emitted(entries, seen)) {
      var x :| x in Emitted(entries, seen) && x.id == id;
      var i := EmittedSource(entries, seen, x);
    }
  }
}
