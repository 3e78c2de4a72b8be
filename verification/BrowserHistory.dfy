/** The browser history of a project (`browserHistoryStore.ts`): a list of the newest pages, at most 50,
    into which visits are inserted as they happen, or by their time when they were buffered. */
module BrowserHistory {
  import opened Prelude

  const MAX_ENTRIES: nat := 50

  /** Times are the source's milliseconds since the epoch. */
  datatype Entry = Entry(url: string, lastVisitedAt: int, title: Option<string>)

  datatype Visit = Visit(url: string, at: int)

  /** How addresses are told apart for one environment: the key that stands for a page, and whether an
      address names the local host in a way that stays the same. */
  datatype Addresses = Addresses(key: string -> string, stableLocal: string -> bool)

  // ----- Inserting one visit -----

  function Find(entries: seq<Entry>, key: string, a: Addresses): Option<Entry> {
    if entries == [] then None
    else if a.key(entries[0].url) == key then Some(entries[0])
    else Find(entries[1..], key, a)
  }

  function Rest(entries: seq<Entry>, key: string, a: Addresses): seq<Entry> {
    if entries == [] then []
    else (if a.key(entries[0].url) != key then [entries[0]] else []) + Rest(entries[1..], key, a)
  }

  /** Before the first entry that is older. */
  function Spliced(rest: seq<Entry>, entry: Entry): seq<Entry> {
    if rest == [] then [entry]
    else if rest[0].lastVisitedAt < entry.lastVisitedAt then [entry] + rest
    else [rest[0]] + Spliced(rest[1..], entry)
  }

  function Capped(entries: seq<Entry>): seq<Entry> {
    if |entries| > MAX_ENTRIES then entries[..MAX_ENTRIES] else entries
  }

  /** The entry a visit leaves: the known one keeps its title, and its address unless a stable local one
      comes to replace it. */
  function Visited(existing: Option<Entry>, visit: Visit, ordered: bool, a: Addresses): Entry {
    if existing.None? then Entry(visit.url, visit.at, None)
    else
      existing.value.(
        url := if a.stableLocal(existing.value.url) || !a.stableLocal(visit.url) then existing.value.url else visit.url,
        lastVisitedAt := if ordered && existing.value.lastVisitedAt > visit.at then existing.value.lastVisitedAt else visit.at)
  }

  /** `upsertHistoryEntry`. */
  function Upsert(entries: seq<Entry>, visit: Visit, ordered: bool, a: Addresses): seq<Entry> {
    var key := a.key(visit.url);
    var entry := Visited(Find(entries, key, a), visit, ordered, a);
    var rest := Rest(entries, key, a);
    Capped(if ordered then Spliced(rest, entry) else [entry] + rest)
  }

  // ----- What the list stands for -----

  /** The unbounded map a visit updates: each page's latest time. */
  function Latest(times: map<string, int>, key: string, at: int): map<string, int> {
    if key in times && times[key] > at then times else times[key := at]
  }

  predicate DistinctKeys(entries: seq<Entry>, a: Addresses) {
    forall i, j :: 0 <= i < j < |entries| ==> a.key(entries[i].url) != a.key(entries[j].url)
  }

  predicate NewestFirst(entries: seq<Entry>) {
    forall i, j :: 0 <= i < j < |entries| ==> entries[i].lastVisitedAt > entries[j].lastVisitedAt
  }

  predicate Lists(entries: seq<Entry>, key: string, a: Addresses) {
    exists entry <- entries :: a.key(entry.url) == key
  }

  predicate DistinctTimes(times: map<string, int>) {
    forall k <- times, l <- times :: k != l ==> times[k] != times[l]
  }

  /** The list holds the newest 50 pages of the map with their times, newest first. */
  predicate Represents(entries: seq<Entry>, times: map<string, int>, a: Addresses) {
    && DistinctKeys(entries, a) && NewestFirst(entries) && |entries| <= MAX_ENTRIES
    && (forall entry <- entries :: a.key(entry.url) in times && times[a.key(entry.url)] == entry.lastVisitedAt)
    && (forall k <- times :: Lists(entries, k, a) || (|entries| == MAX_ENTRIES && forall entry <- entries :: times[k] < entry.lastVisitedAt))
  }

  /** A list as pages and times, which is all that the map decides. */
  function Pages(entries: seq<Entry>, a: Addresses): seq<(string, int)> {
    seq(|entries|, i requires 0 <= i < |entries| => (a.key(entries[i].url), entries[i].lastVisitedAt))
  }

  function Elements(pages: seq<(string, int)>): set<(string, int)> {
    set page | page in pages
  }

  function PageSet(entries: seq<Entry>, a: Addresses): set<(string, int)> {
    Elements(Pages(entries, a))
  }

  lemma PagesAre(entries: seq<Entry>, a: Addresses)
    ensures forall entry <- entries :: (a.key(entry.url), entry.lastVisitedAt) in PageSet(entries, a)
    ensures forall page <- PageSet(entries, a) :: exists entry <- entries :: page == (a.key(entry.url), entry.lastVisitedAt)
  {
    forall entry <- entries
      ensures (a.key(entry.url), entry.lastVisitedAt) in PageSet(entries, a)
    {
      var i :| 0 <= i < |entries| && entries[i] == entry;
      assert Pages(entries, a)[i] in Pages(entries, a);
    }
    forall page <- PageSet(entries, a)
      ensures exists entry <- entries :: page == (a.key(entry.url), entry.lastVisitedAt)
    {
      var i :| 0 <= i < |Pages(entries, a)| && Pages(entries, a)[i] == page;
      assert entries[i] in entries;
    }
  }

  predicate Descending(pages: seq<(string, int)>) {
    forall i, j :: 0 <= i < j < |pages| ==> pages[i].1 > pages[j].1
  }

  lemma {:induction false} DistinctCount(pages: seq<(string, int)>)
    requires Descending(pages)
    ensures |Elements(pages)| == |pages|
  {
    if pages != [] {
      DistinctCount(pages[1..]);
      assert pages == [pages[0]] + pages[1..];
      assert Elements(pages) == {pages[0]} + Elements(pages[1..]);
      assert forall page <- pages[1..] :: page.1 < pages[0].1;
    }
  }

  /** A descending list is determined by its elements. */
  lemma {:induction false} DescendingIsUnique(p: seq<(string, int)>, q: seq<(string, int)>)
    requires Descending(p) && Descending(q) && Elements(p) == Elements(q)
    ensures p == q
  {
    DistinctCount(p);
    DistinctCount(q);
    if p != [] {
      assert p[0] in Elements(q) && q[0] in Elements(p);
      assert p[0] == q[0];
      assert forall page :: page in p[1..] <==> page in p && page != p[0] by {
        assert p == [p[0]] + p[1..];
      }
      assert forall page :: page in q[1..] <==> page in q && page != q[0] by {
        assert q == [q[0]] + q[1..];
      }
      assert forall page :: page in p <==> page in Elements(p);
      assert forall page :: page in q <==> page in Elements(q);
      assert Elements(p[1..]) == Elements(q[1..]);
      DescendingIsUnique(p[1..], q[1..]);
    }
  }

  /** The same as a set of pages. */
  predicate SetRepresents(pages: set<(string, int)>, times: map<string, int>) {
    && |pages| <= MAX_ENTRIES
    && (forall page <- pages :: page.0 in times && times[page.0] == page.1)
    && (forall k <- times :: (k, times[k]) in pages || (|pages| == MAX_ENTRIES && forall page <- pages :: times[k] < page.1))
  }

  lemma PageSetRepresents(entries: seq<Entry>, times: map<string, int>, a: Addresses)
    requires Represents(entries, times, a)
    ensures SetRepresents(PageSet(entries, a), times)
  {
    PagesAre(entries, a);
    DistinctCount(Pages(entries, a));
    forall k <- times
      ensures (k, times[k]) in PageSet(entries, a) || (|entries| == MAX_ENTRIES && forall page <- PageSet(entries, a) :: times[k] < page.1)
    {
      if Lists(entries, k, a) {
        var entry :| entry in entries && a.key(entry.url) == k;
        assert (k, entry.lastVisitedAt) in PageSet(entries, a);
      }
    }
  }

  /** A page one set has, another set of the same map has too: otherwise that other set would hold 50
      newer pages, which the first would then have to hold besides. */
  lemma SamePages(p: set<(string, int)>, q: set<(string, int)>, times: map<string, int>)
    requires SetRepresents(p, times) && SetRepresents(q, times)
    ensures p <= q
  {
    forall page <- p
      ensures page in q
    {
      if page !in q {
        assert forall other <- q :: times[page.0] < other.1;
        assert forall other <- q :: (other.0, times[other.0]) == other;
        assert q <= p - {page};
        SmallerSet(q, p - {page});
        assert false;
      }
    }
  }

  lemma {:induction false} SmallerSet<T>(x: set<T>, y: set<T>)
    requires x <= y
    ensures |x| <= |y|
  {
    if x != {} {
      var e :| e in x;
      SmallerSet(x - {e}, y - {e});
    }
  }

  lemma PagesDescend(entries: seq<Entry>, a: Addresses)
    requires NewestFirst(entries)
    ensures Descending(Pages(entries, a))
  {
  }

  /** At most one list of pages represents a map. */
  lemma RepresentationIsUnique(x: seq<Entry>, y: seq<Entry>, times: map<string, int>, a: Addresses)
    requires Represents(x, times, a) && Represents(y, times, a)
    ensures Pages(x, a) == Pages(y, a)
  {
    PageSetRepresents(x, times, a);
    PageSetRepresents(y, times, a);
    SamePages(PageSet(x, a), PageSet(y, a), times);
    SamePages(PageSet(y, a), PageSet(x, a), times);
    PagesDescend(x, a);
    PagesDescend(y, a);
    DescendingIsUnique(Pages(x, a), Pages(y, a));
  }

  // ----- Ordered insertion keeps the representation -----

  lemma {:induction false} FindIs(entries: seq<Entry>, key: string, a: Addresses)
    ensures Find(entries, key, a).Some? <==> Lists(entries, key, a)
    ensures Find(entries, key, a).Some? ==> Find(entries, key, a).value in entries && a.key(Find(entries, key, a).value.url) == key
  {
    if entries != [] {
      FindIs(entries[1..], key, a);
      assert entries == [entries[0]] + entries[1..];
      assert entries[0] in entries;
      assert forall entry :: entry in entries <==> entry == entries[0] || entry in entries[1..];
    }
  }

  lemma {:induction false} RestHas(entries: seq<Entry>, key: string, a: Addresses)
    ensures forall entry :: entry in Rest(entries, key, a) <==> entry in entries && a.key(entry.url) != key
  {
    if entries != [] {
      RestHas(entries[1..], key, a);
      assert entries == [entries[0]] + entries[1..];
    }
  }

  lemma TailIsOlder(entries: seq<Entry>, a: Addresses)
    requires entries != [] && NewestFirst(entries) && DistinctKeys(entries, a)
    ensures NewestFirst(entries[1..]) && DistinctKeys(entries[1..], a)
    ensures forall e <- entries[1..] :: e.lastVisitedAt < entries[0].lastVisitedAt && a.key(e.url) != a.key(entries[0].url)
  {
    assert forall i :: 0 <= i < |entries[1..]| ==> entries[1..][i] == entries[i + 1];
  }

  lemma PrependInOrder(first: Entry, rest: seq<Entry>, a: Addresses)
    requires NewestFirst(rest) && DistinctKeys(rest, a)
    requires forall e <- rest :: e.lastVisitedAt < first.lastVisitedAt && a.key(e.url) != a.key(first.url)
    ensures NewestFirst([first] + rest) && DistinctKeys([first] + rest, a)
  {
    assert forall i :: 0 <= i < |rest| ==> rest[i] in rest;
  }

  lemma {:induction false} RestInOrder(entries: seq<Entry>, key: string, a: Addresses)
    requires NewestFirst(entries) && DistinctKeys(entries, a)
    ensures NewestFirst(Rest(entries, key, a)) && DistinctKeys(Rest(entries, key, a), a)
  {
    if entries != [] {
      TailIsOlder(entries, a);
      RestInOrder(entries[1..], key, a);
      RestHas(entries[1..], key, a);
      if a.key(entries[0].url) != key {
        PrependInOrder(entries[0], Rest(entries[1..], key, a), a);
      }
    }
  }

  lemma {:induction false} RestCount(entries: seq<Entry>, key: string, a: Addresses)
    requires DistinctKeys(entries, a)
    ensures |Rest(entries, key, a)| == |entries| - if Lists(entries, key, a) then 1 else 0
  {
    if entries != [] {
      RestCount(entries[1..], key, a);
      assert entries == [entries[0]] + entries[1..];
      ListsFrom(entries, key, a);
    }
  }

  lemma ListsFrom(entries: seq<Entry>, key: string, a: Addresses)
    requires entries != [] && DistinctKeys(entries, a)
    ensures Lists(entries, key, a) <==> a.key(entries[0].url) == key || Lists(entries[1..], key, a)
    ensures !(a.key(entries[0].url) == key && Lists(entries[1..], key, a))
  {
    assert entries[0] in entries;
    assert forall entry :: entry in entries <==> entry == entries[0] || entry in entries[1..] by {
      assert entries == [entries[0]] + entries[1..];
    }
    if Lists(entries[1..], key, a) {
      var entry :| entry in entries[1..] && a.key(entry.url) == key;
      var j :| 0 <= j < |entries[1..]| && entries[1..][j] == entry;
      assert entries[j + 1] == entry;
    }
  }

  lemma {:induction false} SplicedHas(rest: seq<Entry>, entry: Entry)
    ensures forall e :: e in Spliced(rest, entry) <==> e in rest || e == entry
    ensures |Spliced(rest, entry)| == |rest| + 1
  {
    if rest != [] {
      SplicedHas(rest[1..], entry);
      assert rest == [rest[0]] + rest[1..];
    }
  }

  lemma {:induction false} SplicedInOrder(rest: seq<Entry>, entry: Entry)
    requires NewestFirst(rest) && forall e <- rest :: e.lastVisitedAt != entry.lastVisitedAt
    ensures NewestFirst(Spliced(rest, entry))
  {
    if rest != [] {
      assert rest[0] in rest;
      if rest[0].lastVisitedAt > entry.lastVisitedAt {
        assert forall e <- rest[1..] :: e in rest;
        SplicedInOrder(rest[1..], entry);
        SplicedHas(rest[1..], entry);
        var tail := Spliced(rest[1..], entry);
        forall i | 0 <= i < |tail|
          ensures tail[i].lastVisitedAt < rest[0].lastVisitedAt
        {
          assert tail[i] in tail;
          if tail[i] in rest[1..] {
            var j :| 0 <= j < |rest[1..]| && rest[1..][j] == tail[i];
            assert rest[j + 1] == tail[i];
          }
        }
      }
    }
  }

  lemma {:induction false} SplicedDistinct(rest: seq<Entry>, entry: Entry, a: Addresses)
    requires DistinctKeys(rest, a) && forall e <- rest :: a.key(e.url) != a.key(entry.url)
    ensures DistinctKeys(Spliced(rest, entry), a)
  {
    if rest != [] && rest[0].lastVisitedAt >= entry.lastVisitedAt {
      assert rest[0] in rest;
      assert forall e <- rest[1..] :: e in rest;
      SplicedDistinct(rest[1..], entry, a);
      SplicedHas(rest[1..], entry);
      var tail := Spliced(rest[1..], entry);
      forall i | 0 <= i < |tail|
        ensures a.key(tail[i].url) != a.key(rest[0].url)
      {
        assert tail[i] in tail;
        if tail[i] in rest[1..] {
          var j :| 0 <= j < |rest[1..]| && rest[1..][j] == tail[i];
          assert rest[j + 1] == tail[i];
        }
      }
    } else {
      assert forall i :: 0 <= i < |rest| ==> rest[i] in rest;
    }
  }

  /** An uncapped list stands for a map: all of it, or all but pages older than 50 listed ones. */
  predicate Covers(entries: seq<Entry>, times: map<string, int>, a: Addresses) {
    && DistinctKeys(entries, a) && NewestFirst(entries)
    && (forall entry <- entries :: a.key(entry.url) in times && times[a.key(entry.url)] == entry.lastVisitedAt)
    && (forall k <- times :: Lists(entries, k, a)
          || (|entries| >= MAX_ENTRIES && forall i :: 0 <= i < MAX_ENTRIES ==> times[k] < entries[i].lastVisitedAt))
  }

  lemma CappingRepresents(entries: seq<Entry>, times: map<string, int>, a: Addresses)
    requires Covers(entries, times, a)
    ensures Represents(Capped(entries), times, a)
  {
    var capped := Capped(entries);
    forall k <- times
      ensures Lists(capped, k, a) || (|capped| == MAX_ENTRIES && forall entry <- capped :: times[k] < entry.lastVisitedAt)
    {
      if Lists(entries, k, a) {
        var entry :| entry in entries && a.key(entry.url) == k;
        var i :| 0 <= i < |entries| && entries[i] == entry;
        if i < |capped| {
          assert capped[i] in capped;
        }
      }
    }
  }

  /** An entry spliced among the others covers a map that agrees with them, if every page left out is
      older than the others, and than the entry too unless 50 others stand before it. */
  lemma SpliceCovers(rest: seq<Entry>, entry: Entry, times: map<string, int>, a: Addresses)
    requires NewestFirst(rest) && DistinctKeys(rest, a)
    requires forall e <- rest :: a.key(e.url) != a.key(entry.url) && e.lastVisitedAt != entry.lastVisitedAt
    requires forall e <- rest :: a.key(e.url) in times && times[a.key(e.url)] == e.lastVisitedAt
    requires a.key(entry.url) in times && times[a.key(entry.url)] == entry.lastVisitedAt
    requires forall k <- times :: k == a.key(entry.url) || Lists(rest, k, a) || LeftOut(rest, entry, times[k])
    ensures Covers(Spliced(rest, entry), times, a)
  {
    var spliced := Spliced(rest, entry);
    SplicedHas(rest, entry);
    SplicedInOrder(rest, entry);
    SplicedDistinct(rest, entry, a);
    forall k <- times
      ensures Lists(spliced, k, a) || (|spliced| >= MAX_ENTRIES && forall i :: 0 <= i < MAX_ENTRIES ==> times[k] < spliced[i].lastVisitedAt)
    {
      if Lists(rest, k, a) {
        var e :| e in rest && a.key(e.url) == k;
        assert e in spliced;
      } else if k == a.key(entry.url) {
        assert entry in spliced;
      } else {
        OlderThanFirst(rest, entry, times[k]);
      }
    }
  }

  predicate LeftOut(rest: seq<Entry>, entry: Entry, time: int) {
    && |rest| + 1 >= MAX_ENTRIES
    && (forall e <- rest :: time < e.lastVisitedAt)
    && (|rest| >= MAX_ENTRIES || time < entry.lastVisitedAt)
  }

  lemma OlderThanFirst(rest: seq<Entry>, entry: Entry, time: int)
    requires LeftOut(rest, entry, time) && NewestFirst(Spliced(rest, entry))
    ensures |Spliced(rest, entry)| >= MAX_ENTRIES
    ensures forall i :: 0 <= i < MAX_ENTRIES ==> time < Spliced(rest, entry)[i].lastVisitedAt
  {
    SplicedHas(rest, entry);
    var spliced := Spliced(rest, entry);
    forall i | 0 <= i < MAX_ENTRIES
      ensures time < spliced[i].lastVisitedAt
    {
      assert spliced[i] in spliced;
      if spliced[i] == entry && |rest| >= MAX_ENTRIES {
        assert spliced[MAX_ENTRIES] in spliced;
        assert spliced[i].lastVisitedAt > spliced[MAX_ENTRIES].lastVisitedAt;
      }
    }
  }

  lemma {:induction false} RestSame(entries: seq<Entry>, key: string, a: Addresses)
    requires !Lists(entries, key, a)
    ensures Rest(entries, key, a) == entries
  {
    if entries != [] {
      assert entries[0] in entries;
      assert forall e <- entries[1..] :: e in entries;
      RestSame(entries[1..], key, a);
    }
  }

  lemma {:induction false} SplicedLast(rest: seq<Entry>, entry: Entry)
    requires forall e <- rest :: e.lastVisitedAt > entry.lastVisitedAt
    ensures Spliced(rest, entry) == rest + [entry]
  {
    if rest != [] {
      assert rest[0] in rest;
      assert forall e <- rest[1..] :: e in rest;
      SplicedLast(rest[1..], entry);
    }
  }

  /** A time no other page has. */
  predicate FreshTime(times: map<string, int>, key: string, at: int) {
    forall k <- times :: k != key ==> times[k] != at
  }

  /** A page that is listed gets its latest time and stays listed. */
  lemma RevisitRepresents(entries: seq<Entry>, times: map<string, int>, visit: Visit, a: Addresses)
    requires Represents(entries, times, a) && Lists(entries, a.key(visit.url), a)
    requires DistinctTimes(times) && FreshTime(times, a.key(visit.url), visit.at)
    ensures Represents(Upsert(entries, visit, true, a), Latest(times, a.key(visit.url), visit.at), a)
  {
    var key := a.key(visit.url);
    var rest, entry, times' := Rest(entries, key, a), Visited(Find(entries, key, a), visit, true, a), Latest(times, key, visit.at);
    FindIs(entries, key, a);
    RestHas(entries, key, a);
    RestInOrder(entries, key, a);
    RestCount(entries, key, a);
    assert times'[key] == entry.lastVisitedAt >= times[key];
    forall k <- times'
      ensures k == key || Lists(rest, k, a) || LeftOut(rest, entry, times'[k])
    {
      if k != key && Lists(entries, k, a) {
        var e :| e in entries && a.key(e.url) == k;
        assert e in rest;
      }
    }
    SpliceCovers(rest, entry, times', a);
    CappingRepresents(Spliced(rest, entry), times', a);
  }

  /** A page that is new, or was left out, is listed if it is now among the newest 50. */
  lemma FirstVisitRepresents(entries: seq<Entry>, times: map<string, int>, visit: Visit, a: Addresses)
    requires Represents(entries, times, a) && !Lists(entries, a.key(visit.url), a)
    requires FreshTime(times, a.key(visit.url), visit.at)
    ensures Represents(Upsert(entries, visit, true, a), Latest(times, a.key(visit.url), visit.at), a)
  {
    var key := a.key(visit.url);
    var entry, times' := Entry(visit.url, visit.at, None), Latest(times, key, visit.at);
    FindIs(entries, key, a);
    RestSame(entries, key, a);
    if key in times && times[key] >= visit.at {
      SplicedLast(entries, entry);
      assert Capped(entries + [entry]) == entries;
      assert times' == times;
    } else {
      forall k <- times'
        ensures k == key || Lists(entries, k, a) || LeftOut(entries, entry, times'[k])
      {
      }
      forall e <- entries
        ensures a.key(e.url) != key
      {
        assert !Lists(entries, key, a);
      }
      SpliceCovers(entries, entry, times', a);
      CappingRepresents(Spliced(entries, entry), times', a);
    }
  }

  lemma LatestKeepsDistinct(times: map<string, int>, key: string, at: int)
    requires DistinctTimes(times) && FreshTime(times, key, at)
    ensures DistinctTimes(Latest(times, key, at))
  {
  }

  /** An ordered insertion refines the update of the map. */
  lemma OrderedInsertionRefines(entries: seq<Entry>, times: map<string, int>, visit: Visit, a: Addresses)
    requires Represents(entries, times, a) && DistinctTimes(times) && FreshTime(times, a.key(visit.url), visit.at)
    ensures Represents(Upsert(entries, visit, true, a), Latest(times, a.key(visit.url), visit.at), a)
    ensures DistinctTimes(Latest(times, a.key(visit.url), visit.at))
  {
    LatestKeepsDistinct(times, a.key(visit.url), visit.at);
    if Lists(entries, a.key(visit.url), a) {
      RevisitRepresents(entries, times, visit, a);
    } else {
      FirstVisitRepresents(entries, times, visit, a);
    }
  }

  // ----- What one visit leaves alone -----

  /** The entry of the visited page: one that was listed keeps its title, and its address unless that is replaced
      by the first stable local one; one that was not has the visit's address and no title. */
  predicate IsEntryOf(entry: Entry, entries: seq<Entry>, visit: Visit, a: Addresses) {
    if Lists(entries, a.key(visit.url), a) then
      exists was <- entries ::
        && a.key(was.url) == a.key(visit.url) && entry.title == was.title
        && entry.url == if !a.stableLocal(was.url) && a.stableLocal(visit.url) then visit.url else was.url
    else
      entry.title == None && entry.url == visit.url
  }

  lemma VisitedIs(entries: seq<Entry>, visit: Visit, ordered: bool, a: Addresses)
    ensures IsEntryOf(Visited(Find(entries, a.key(visit.url), a), visit, ordered, a), entries, visit, a)
  {
    FindIs(entries, a.key(visit.url), a);
  }

  /** A visit changes one page: every other entry it leaves in the list is there as it was, and the one of its
      own page is as above. */
  lemma VisitChangesOnePage(entries: seq<Entry>, visit: Visit, ordered: bool, a: Addresses)
    ensures forall entry <- Upsert(entries, visit, ordered, a) ::
      if a.key(entry.url) != a.key(visit.url) then entry in entries else IsEntryOf(entry, entries, visit, a)
  {
    var key := a.key(visit.url);
    var rest, entry := Rest(entries, key, a), Visited(Find(entries, key, a), visit, ordered, a);
    VisitedIs(entries, visit, ordered, a);
    RestHas(entries, key, a);
    SplicedHas(rest, entry);
    FindIs(entries, key, a);
    var whole := if ordered then Spliced(rest, entry) else [entry] + rest;
    assert forall e <- Capped(whole) :: e in whole;
  }

  /** The places of the other pages. */
  ghost function OtherPlaces(entries: seq<Entry>, key: string, a: Addresses): set<nat> {
    set place: nat | place < |entries| && a.key(entries[place].url) != key
  }

  lemma OtherPlacesShift(entries: seq<Entry>, key: string, a: Addresses)
    requires entries != []
    ensures forall place: nat :: place + 1 in OtherPlaces(entries, key, a) <==> place in OtherPlaces(entries[1..], key, a)
    ensures 0 in OtherPlaces(entries, key, a) <==> a.key(entries[0].url) != key
  {
    assert forall place: nat :: place < |entries| - 1 ==> entries[1..][place] == entries[place + 1];
  }

  function Shifted(later: seq<nat>): seq<nat> {
    seq(|later|, k requires 0 <= k < |later| => later[k] + 1)
  }

  lemma ShiftedHas(later: seq<nat>)
    ensures forall place: nat :: place + 1 in Shifted(later) <==> place in later
    ensures 0 !in Shifted(later)
  {
    forall place: nat | place in later
      ensures place + 1 in Shifted(later)
    {
      var k :| 0 <= k < |later| && later[k] == place;
      assert Shifted(later)[k] == place + 1;
    }
  }

  function PlacesOfMore(entries: seq<Entry>, key: string, a: Addresses, later: seq<nat>): seq<nat>
    requires entries != []
  {
    if a.key(entries[0].url) != key then [0] + Shifted(later) else Shifted(later)
  }

  lemma PlacesOfMoreAre(entries: seq<Entry>, key: string, a: Addresses, later: seq<nat>)
    requires entries != [] && ArePlaces(later, OtherPlaces(entries[1..], key, a))
    ensures ArePlaces(PlacesOfMore(entries, key, a, later), OtherPlaces(entries, key, a))
  {
    OtherPlacesShift(entries, key, a);
    ShiftedHas(later);
    var at := PlacesOfMore(entries, key, a, later);
    forall place: nat
      ensures place in at <==> place in OtherPlaces(entries, key, a)
    {
      if place > 0 {
        assert place - 1 in later <==> place - 1 in OtherPlaces(entries[1..], key, a);
        assert (place - 1) + 1 in Shifted(later) <==> place - 1 in later;
      }
    }
  }

  predicate StandAt(rest: seq<Entry>, entries: seq<Entry>, at: seq<nat>) {
    |at| == |rest| && forall k :: 0 <= k < |at| ==> at[k] < |entries| && rest[k] == entries[at[k]]
  }

  lemma MoreStandAt(entries: seq<Entry>, key: string, a: Addresses, rest: seq<Entry>, later: seq<nat>)
    requires entries != [] && StandAt(rest, entries[1..], later)
    ensures StandAt((if a.key(entries[0].url) != key then [entries[0]] else []) + rest, entries, PlacesOfMore(entries, key, a, later))
  {
    forall k | 0 <= k < |later|
      ensures later[k] + 1 < |entries| && rest[k] == entries[later[k] + 1]
    {
    }
  }

  lemma {:induction false} RestKeeps(entries: seq<Entry>, key: string, a: Addresses) returns (at: seq<nat>)
    ensures ArePlaces(at, OtherPlaces(entries, key, a)) && StandAt(Rest(entries, key, a), entries, at)
  {
    at := [];
    if entries != [] {
      var later := RestKeeps(entries[1..], key, a);
      at := PlacesOfMore(entries, key, a, later);
      PlacesOfMoreAre(entries, key, a, later);
      MoreStandAt(entries, key, a, Rest(entries[1..], key, a), later);
    }
  }

  /** A visit that is not ordered goes to the front with its own time, whatever times the others have; behind it
      stand the other pages in their order, the last of them cut off past 50. */
  lemma UnorderedGoesFirst(entries: seq<Entry>, visit: Visit, a: Addresses) returns (at: seq<nat>)
    ensures ArePlaces(at, OtherPlaces(entries, a.key(visit.url), a))
    ensures var entries' := Upsert(entries, visit, false, a);
      && |entries'| == (if |at| < 50 then |at| + 1 else 50)
      && a.key(entries'[0].url) == a.key(visit.url) && entries'[0].lastVisitedAt == visit.at
      && forall k :: 1 <= k < |entries'| ==> at[k - 1] < |entries| && entries'[k] == entries[at[k - 1]]
  {
    var key := a.key(visit.url);
    at := RestKeeps(entries, key, a);
    FindIs(entries, key, a);
  }

  // ----- Whole sequences of visits -----

  function UpsertAll(entries: seq<Entry>, visits: seq<Visit>, ordered: bool, a: Addresses): seq<Entry> {
    if visits == [] then entries
    else Upsert(UpsertAll(entries, visits[..|visits| - 1], ordered, a), visits[|visits| - 1], ordered, a)
  }

  function LatestOf(visits: seq<Visit>, a: Addresses): map<string, int> {
    if visits == [] then map[]
    else
      var last := visits[|visits| - 1];
      Latest(LatestOf(visits[..|visits| - 1], a), a.key(last.url), last.at)
  }

  predicate DistinctVisits(visits: seq<Visit>) {
    forall i, j :: 0 <= i < j < |visits| ==> visits[i].at != visits[j].at
  }

  /** The map holds exactly the visited pages, each with the greatest time of its visits. */
  lemma {:induction false} LatestOfIs(visits: seq<Visit>, a: Addresses)
    ensures forall visit <- visits :: a.key(visit.url) in LatestOf(visits, a) && visit.at <= LatestOf(visits, a)[a.key(visit.url)]
    ensures forall k <- LatestOf(visits, a) :: exists visit <- visits :: a.key(visit.url) == k && visit.at == LatestOf(visits, a)[k]
  {
    if visits != [] {
      var front, last := visits[..|visits| - 1], visits[|visits| - 1];
      LatestOfIs(front, a);
      assert visits == front + [last];
      forall k <- LatestOf(visits, a)
        ensures exists visit <- visits :: a.key(visit.url) == k && visit.at == LatestOf(visits, a)[k]
      {
        if k in LatestOf(front, a) && LatestOf(front, a)[k] == LatestOf(visits, a)[k] {
          var visit :| visit in front && a.key(visit.url) == k && visit.at == LatestOf(front, a)[k];
          assert visit in visits;
        } else {
          assert last in visits;
        }
      }
    }
  }

  /** For any visits at distinct times, inserting them by time leaves the newest 50 pages of the map from
      page to latest time, newest first. */
  lemma {:induction false} HistoryRefinesMap(visits: seq<Visit>, a: Addresses)
    requires DistinctVisits(visits)
    ensures Represents(UpsertAll([], visits, true, a), LatestOf(visits, a), a) && DistinctTimes(LatestOf(visits, a))
  {
    if visits != [] {
      var front, last := visits[..|visits| - 1], visits[|visits| - 1];
      HistoryRefinesMap(front, a);
      LatestOfIs(front, a);
      forall k <- LatestOf(front, a)
        ensures LatestOf(front, a)[k] != last.at
      {
        var visit :| visit in front && a.key(visit.url) == k && visit.at == LatestOf(front, a)[k];
        var i :| 0 <= i < |front| && front[i] == visit;
        assert visits[i].at != visits[|visits| - 1].at;
      }
      OrderedInsertionRefines(UpsertAll([], front, true, a), LatestOf(front, a), last, a);
    }
  }

  function LatestFrom(times: map<string, int>, visits: seq<Visit>, a: Addresses): map<string, int> {
    if visits == [] then times
    else
      var last := visits[|visits| - 1];
      Latest(LatestFrom(times, visits[..|visits| - 1], a), a.key(last.url), last.at)
  }

  /** Each page's time is the later of the one it had and the latest visit. */
  lemma {:induction false} LatestFromIs(times: map<string, int>, visits: seq<Visit>, a: Addresses)
    ensures forall k :: k in LatestFrom(times, visits, a) <==> k in times || k in LatestOf(visits, a)
    ensures forall k <- LatestFrom(times, visits, a) ::
      LatestFrom(times, visits, a)[k] == if k !in LatestOf(visits, a) then times[k]
                                         else if k in times && times[k] > LatestOf(visits, a)[k] then times[k]
                                         else LatestOf(visits, a)[k]
  {
    if visits != [] {
      LatestFromIs(times, visits[..|visits| - 1], a);
    }
  }

  /** No visit is at a time that another page has. */
  predicate FreshVisits(times: map<string, int>, visits: seq<Visit>, a: Addresses) {
    forall visit <- visits :: FreshTime(times, a.key(visit.url), visit.at)
  }

  lemma NoVisitAt(visits: seq<Visit>, a: Addresses, at: int)
    requires forall visit <- visits :: visit.at != at
    ensures forall k <- LatestOf(visits, a) :: LatestOf(visits, a)[k] != at
  {
    LatestOfIs(visits, a);
  }

  lemma LastIsFresh(times: map<string, int>, visits: seq<Visit>, a: Addresses)
    requires visits != [] && DistinctVisits(visits) && FreshVisits(times, visits, a)
    ensures var front, last := visits[..|visits| - 1], visits[|visits| - 1];
      FreshVisits(times, front, a) && FreshTime(LatestFrom(times, front, a), a.key(last.url), last.at)
  {
    var front, last := visits[..|visits| - 1], visits[|visits| - 1];
    assert last in visits;
    forall visit <- front
      ensures visit in visits && visit.at != last.at
    {
      var n :| 0 <= n < |front| && front[n] == visit;
      assert visits[n].at != visits[|visits| - 1].at;
    }
    NoVisitAt(front, a, last.at);
    LatestFromIs(times, front, a);
  }

  /** The same from any list that represents a map. */
  lemma {:induction false} HistoryRefinesMapFrom(entries: seq<Entry>, times: map<string, int>, visits: seq<Visit>, a: Addresses)
    requires Represents(entries, times, a) && DistinctTimes(times)
    requires DistinctVisits(visits) && FreshVisits(times, visits, a)
    ensures Represents(UpsertAll(entries, visits, true, a), LatestFrom(times, visits, a), a)
    ensures DistinctTimes(LatestFrom(times, visits, a))
  {
    if visits != [] {
      var front, last := visits[..|visits| - 1], visits[|visits| - 1];
      LastIsFresh(times, visits, a);
      HistoryRefinesMapFrom(entries, times, front, a);
      OrderedInsertionRefines(UpsertAll(entries, front, true, a), LatestFrom(times, front, a), last, a);
    }
  }

  lemma LatestGrows(x: seq<Visit>, y: seq<Visit>, a: Addresses, k: string)
    requires (forall visit <- x :: visit in y) && k in LatestOf(x, a)
    ensures k in LatestOf(y, a) && LatestOf(x, a)[k] <= LatestOf(y, a)[k]
  {
    LatestOfIs(x, a);
    var visit :| visit in x && a.key(visit.url) == k && visit.at == LatestOf(x, a)[k];
    LatestOfIs(y, a);
  }

  lemma LatestDependsOnVisits(times: map<string, int>, x: seq<Visit>, y: seq<Visit>, a: Addresses)
    requires forall visit :: visit in x <==> visit in y
    ensures LatestFrom(times, x, a) == LatestFrom(times, y, a)
  {
    forall k <- LatestOf(x, a)
      ensures k in LatestOf(y, a) && LatestOf(x, a)[k] == LatestOf(y, a)[k]
    {
      LatestGrows(x, y, a, k);
      LatestGrows(y, x, a, k);
    }
    forall k <- LatestOf(y, a)
      ensures k in LatestOf(x, a)
    {
      LatestGrows(y, x, a, k);
    }
    LatestFromIs(times, x, a);
    LatestFromIs(times, y, a);
  }

  /** So the order in which buffered visits are flushed into a history does not matter, as long as no two
      pages meet at the same time. */
  lemma FlushOrderIsIrrelevant(entries: seq<Entry>, times: map<string, int>, x: seq<Visit>, y: seq<Visit>, a: Addresses)
    requires Represents(entries, times, a) && DistinctTimes(times) && FreshVisits(times, x, a)
    requires DistinctVisits(x) && DistinctVisits(y) && forall visit :: visit in x <==> visit in y
    ensures Pages(UpsertAll(entries, x, true, a), a) == Pages(UpsertAll(entries, y, true, a), a)
  {
    HistoryRefinesMapFrom(entries, times, x, a);
    HistoryRefinesMapFrom(entries, times, y, a);
    LatestDependsOnVisits(times, x, y, a);
    RepresentationIsUnique(UpsertAll(entries, x, true, a), UpsertAll(entries, y, true, a), LatestFrom(times, x, a), a);
  }

  // ----- Two pages at the same time -----

  /** What a list says by itself. */
  function OwnTimes(entries: seq<Entry>, a: Addresses): map<string, int> {
    if entries == [] then map[]
    else OwnTimes(entries[1..], a)[a.key(entries[0].url) := entries[0].lastVisitedAt]
  }

  predicate TimesAre(entries: seq<Entry>, times: map<string, int>, a: Addresses) {
    && (forall entry <- entries :: a.key(entry.url) in times && times[a.key(entry.url)] == entry.lastVisitedAt)
    && (forall k <- times :: exists entry <- entries :: a.key(entry.url) == k && entry.lastVisitedAt == times[k])
  }

  lemma {:induction false} OwnTimesAre(entries: seq<Entry>, a: Addresses)
    requires DistinctKeys(entries, a) && NewestFirst(entries)
    ensures TimesAre(entries, OwnTimes(entries, a), a)
  {
    if entries != [] {
      TailIsOlder(entries, a);
      OwnTimesAre(entries[1..], a);
      OneMoreTime(entries, OwnTimes(entries[1..], a), a);
    }
  }

  lemma OneMoreTime(entries: seq<Entry>, times: map<string, int>, a: Addresses)
    requires entries != [] && TimesAre(entries[1..], times, a)
    requires forall entry <- entries[1..] :: a.key(entry.url) != a.key(entries[0].url)
    ensures TimesAre(entries, times[a.key(entries[0].url) := entries[0].lastVisitedAt], a)
  {
    var times' := times[a.key(entries[0].url) := entries[0].lastVisitedAt];
    assert entries == [entries[0]] + entries[1..];
    forall k <- times'
      ensures exists entry <- entries :: a.key(entry.url) == k && entry.lastVisitedAt == times'[k]
    {
      if k == a.key(entries[0].url) {
        assert entries[0] in entries;
      } else {
        var entry :| entry in entries[1..] && a.key(entry.url) == k && entry.lastVisitedAt == times[k];
        assert entry in entries;
      }
    }
  }

  lemma OwnTimesRepresent(entries: seq<Entry>, a: Addresses)
    requires IsHistory(entries, a)
    ensures Represents(entries, OwnTimes(entries, a), a) && DistinctTimes(OwnTimes(entries, a))
  {
    var times := OwnTimes(entries, a);
    OwnTimesAre(entries, a);
    forall k <- times, l <- times | k != l
      ensures times[k] != times[l]
    {
      var x :| x in entries && a.key(x.url) == k && x.lastVisitedAt == times[k];
      var y :| y in entries && a.key(y.url) == l && y.lastVisitedAt == times[l];
    }
  }

  predicate IsHistory(entries: seq<Entry>, a: Addresses) {
    DistinctKeys(entries, a) && NewestFirst(entries) && |entries| <= MAX_ENTRIES
  }

  /** The page is listed with a later visit. */
  predicate ListsLater(entries: seq<Entry>, key: string, at: int, a: Addresses) {
    exists entry <- entries :: a.key(entry.url) == key && entry.lastVisitedAt > at
  }

  predicate IsFullOfLater(entries: seq<Entry>, at: int) {
    |entries| == MAX_ENTRIES && forall entry <- entries :: entry.lastVisitedAt > at
  }

  /** How many entries at the front are later. */
  function LaterCount(entries: seq<Entry>, at: int): (n: nat)
    ensures n <= |entries|
  {
    if entries == [] || entries[0].lastVisitedAt <= at then 0 else 1 + LaterCount(entries[1..], at)
  }

  lemma {:induction false} LaterCountIs(entries: seq<Entry>, at: int)
    requires NewestFirst(entries)
    ensures forall i :: 0 <= i < |entries| ==> (entries[i].lastVisitedAt > at <==> i < LaterCount(entries, at))
  {
    if entries != [] {
      assert forall i :: 0 < i < |entries| ==> entries[i] == entries[1..][i - 1];
      LaterCountIs(entries[1..], at);
    }
  }

  /** An entry goes right behind the front whose entries are no older, if what follows is older. */
  lemma {:induction false} SplicedAt(rest: seq<Entry>, entry: Entry, n: nat)
    requires n <= |rest|
    requires forall i :: 0 <= i < n ==> rest[i].lastVisitedAt >= entry.lastVisitedAt
    requires n < |rest| ==> rest[n].lastVisitedAt < entry.lastVisitedAt
    ensures Spliced(rest, entry) == rest[..n] + [entry] + rest[n..]
  {
    if n > 0 {
      assert forall i :: 0 <= i < n - 1 ==> rest[1..][i] == rest[i + 1];
      SplicedAt(rest[1..], entry, n - 1);
      SplitsBehindFirst(rest, [entry], n);
    }
  }

  lemma SplitsBehindFirst<T>(s: seq<T>, middle: seq<T>, n: nat)
    requires 0 < n <= |s|
    ensures [s[0]] + (s[1..][..n - 1] + middle + s[1..][n - 1..]) == s[..n] + middle + s[n..]
  {
    assert s == [s[0]] + s[1..];
  }

  lemma {:induction false} SplicedKeepsFront(rest: seq<Entry>, entry: Entry, n: nat)
    requires n <= |rest| && forall i :: 0 <= i < n ==> rest[i].lastVisitedAt >= entry.lastVisitedAt
    ensures |Spliced(rest, entry)| == |rest| + 1 && Spliced(rest, entry)[..n] == rest[..n]
  {
    SplicedHas(rest, entry);
    if n > 0 {
      assert forall i :: 0 <= i < n - 1 ==> rest[1..][i] == rest[i + 1];
      SplicedKeepsFront(rest[1..], entry, n - 1);
      assert rest == [rest[0]] + rest[1..];
    }
  }

  lemma RestOfOther(entries: seq<Entry>, key: string, a: Addresses)
    requires entries != [] && a.key(entries[0].url) != key
    ensures Rest(entries, key, a) == [entries[0]] + Rest(entries[1..], key, a)
  {
  }

  lemma FrontBehindFirst<T>(s: seq<T>, tail: seq<T>, n: nat)
    requires 0 < n <= |s|
    ensures [s[0]] + (s[1..][..n - 1] + tail) == s[..n] + tail && s[1..][n - 1..] == s[n..]
  {
    assert s == [s[0]] + s[1..];
  }

  lemma {:induction false} RestKeepsFront(entries: seq<Entry>, key: string, n: nat, a: Addresses)
    requires n <= |entries| && forall i :: 0 <= i < n ==> a.key(entries[i].url) != key
    ensures Rest(entries, key, a) == entries[..n] + Rest(entries[n..], key, a)
  {
    if n > 0 {
      assert forall i :: 0 <= i < n - 1 ==> entries[1..][i] == entries[i + 1];
      RestKeepsFront(entries[1..], key, n - 1, a);
      RestOfOther(entries, key, a);
      FrontBehindFirst(entries, Rest(entries[n..], key, a), n);
    } else {
      assert entries[0..] == entries;
    }
  }

  /** A visit that is the page's latest is put right behind the later entries. */
  lemma VisitIsSpliced(entries: seq<Entry>, visit: Visit, entry: Entry, a: Addresses)
    requires IsHistory(entries, a) && forall e <- entries :: e.lastVisitedAt != visit.at
    requires !ListsLater(entries, a.key(visit.url), visit.at, a) && entry.lastVisitedAt == visit.at
    ensures var n, key := LaterCount(entries, visit.at), a.key(visit.url);
      Spliced(Rest(entries, key, a), entry) == entries[..n] + [entry] + Rest(entries[n..], key, a)
  {
    var n, key := LaterCount(entries, visit.at), a.key(visit.url);
    var tail := Rest(entries[n..], key, a);
    LaterCountIs(entries, visit.at);
    FrontIsOthers(entries, visit, a);
    RestKeepsFront(entries, key, n, a);
    RestHas(entries[n..], key, a);
    if tail != [] {
      assert tail[0] in entries[n..];
    }
    SplicedAt(entries[..n] + tail, entry, n);
    assert (entries[..n] + tail)[n..] == tail;
  }

  lemma LaterFits(entries: seq<Entry>, at: int, a: Addresses)
    requires IsHistory(entries, a) && !IsFullOfLater(entries, at)
    ensures LaterCount(entries, at) < MAX_ENTRIES
  {
    LaterCountIs(entries, at);
  }

  /** There it stands, if there is room. */
  lemma VisitStandsAt(entries: seq<Entry>, visit: Visit, a: Addresses)
    requires IsHistory(entries, a) && forall entry <- entries :: entry.lastVisitedAt != visit.at
    requires !ListsLater(entries, a.key(visit.url), visit.at, a) && !IsFullOfLater(entries, visit.at)
    ensures var n, entries' := LaterCount(entries, visit.at), Upsert(entries, visit, true, a);
      && n < |entries'| && n < MAX_ENTRIES && entries'[..n] == entries[..n]
      && a.key(entries'[n].url) == a.key(visit.url) && entries'[n].lastVisitedAt == visit.at
  {
    var n, key := LaterCount(entries, visit.at), a.key(visit.url);
    var entry := Visited(Find(entries, key, a), visit, true, a);
    VisitedTime(entries, visit, a);
    VisitIsSpliced(entries, visit, entry, a);
    LaterFits(entries, visit.at, a);
    CappedFront(entries[..n], entry, Rest(entries[n..], key, a));
  }

  lemma CappedFront(front: seq<Entry>, entry: Entry, tail: seq<Entry>)
    requires |front| < MAX_ENTRIES
    ensures var capped := Capped(front + [entry] + tail);
      |front| < |capped| && capped[..|front|] == front && capped[|front|] == entry
  {
  }

  lemma OthersWereThere(entries: seq<Entry>, visit: Visit, a: Addresses)
    ensures forall entry <- Upsert(entries, visit, true, a) :: entry in entries || entry == Visited(Find(entries, a.key(visit.url), a), visit, true, a)
  {
    var rest, entry := Rest(entries, a.key(visit.url), a), Visited(Find(entries, a.key(visit.url), a), visit, true, a);
    RestHas(entries, a.key(visit.url), a);
    SplicedHas(rest, entry);
    var spliced := Spliced(rest, entry);
    assert forall e <- Capped(spliced) :: e in spliced;
  }

  lemma FrontIsOthers(entries: seq<Entry>, visit: Visit, a: Addresses)
    requires NewestFirst(entries) && !ListsLater(entries, a.key(visit.url), visit.at, a)
    ensures forall i :: 0 <= i < LaterCount(entries, visit.at) ==> a.key(entries[i].url) != a.key(visit.url)
  {
    LaterCountIs(entries, visit.at);
    forall i | 0 <= i < LaterCount(entries, visit.at)
      ensures a.key(entries[i].url) != a.key(visit.url)
    {
      assert entries[i] in entries;
    }
  }

  lemma VisitedTime(entries: seq<Entry>, visit: Visit, a: Addresses)
    requires !ListsLater(entries, a.key(visit.url), visit.at, a)
    ensures var entry := Visited(Find(entries, a.key(visit.url), a), visit, true, a);
      entry.lastVisitedAt == visit.at && (a.key(entry.url) == a.key(visit.url))
  {
    FindIs(entries, a.key(visit.url), a);
  }

  /** After the first of two visits, the page of the second is still not listed with a later one. */
  lemma StillNotLater(entries: seq<Entry>, first: Visit, second: Visit, a: Addresses)
    requires first.at == second.at && a.key(first.url) != a.key(second.url)
    requires !ListsLater(entries, a.key(first.url), first.at, a) && !ListsLater(entries, a.key(second.url), first.at, a)
    ensures !ListsLater(Upsert(entries, first, true, a), a.key(second.url), first.at, a)
  {
    OthersWereThere(entries, first, a);
    VisitedTime(entries, first, a);
  }

  /** A second visit goes behind entries of other pages that are no older. */
  lemma FrontStays(entries: seq<Entry>, visit: Visit, n: nat, a: Addresses)
    requires n <= |entries| && n <= MAX_ENTRIES && !ListsLater(entries, a.key(visit.url), visit.at, a)
    requires forall i :: 0 <= i < n ==> a.key(entries[i].url) != a.key(visit.url) && entries[i].lastVisitedAt >= visit.at
    ensures n <= |Upsert(entries, visit, true, a)| && Upsert(entries, visit, true, a)[..n] == entries[..n]
  {
    var key := a.key(visit.url);
    var rest, entry := Rest(entries, key, a), Visited(Find(entries, key, a), visit, true, a);
    RestKeepsFront(entries, key, n, a);
    assert rest[..n] == entries[..n];
    assert forall i :: 0 <= i < n ==> rest[i] == entries[i];
    VisitedTime(entries, visit, a);
    SplicedKeepsFront(rest, entry, n);
    assert Capped(Spliced(rest, entry))[..n] == Spliced(rest, entry)[..n];
  }

  /** A second visit at the same time goes behind the first. */
  lemma SecondGoesBehind(entries: seq<Entry>, first: Visit, second: Visit, a: Addresses)
    requires IsHistory(entries, a) && first.at == second.at && a.key(first.url) != a.key(second.url)
    requires forall entry <- entries :: entry.lastVisitedAt != first.at
    requires !ListsLater(entries, a.key(first.url), first.at, a) && !ListsLater(entries, a.key(second.url), first.at, a)
    requires !IsFullOfLater(entries, first.at)
    ensures var n, both := LaterCount(entries, first.at), Upsert(Upsert(entries, first, true, a), second, true, a);
      n < |both| && a.key(both[n].url) == a.key(first.url)
  {
    var n := LaterCount(entries, first.at);
    var entries' := Upsert(entries, first, true, a);
    VisitStandsAt(entries, first, a);
    FrontIsOthers(entries, second, a);
    LaterCountIs(entries, first.at);
    forall i | 0 <= i < n + 1
      ensures a.key(entries'[i].url) != a.key(second.url) && entries'[i].lastVisitedAt >= first.at
    {
      if i < n {
        assert entries'[i] == entries'[..n][i] == entries[..n][i];
      }
    }
    StillNotLater(entries, first, second, a);
    FrontStays(entries', second, n + 1, a);
    var both := Upsert(entries', second, true, a);
    assert both[n] == both[..n + 1][n] == entries'[..n + 1][n];
  }

  lemma {:induction false} FoundAt(entries: seq<Entry>, i: nat, a: Addresses)
    requires i < |entries| && DistinctKeys(entries, a)
    ensures Find(entries, a.key(entries[i].url), a) == Some(entries[i])
    ensures Rest(entries, a.key(entries[i].url), a) == entries[..i] + entries[i + 1..]
  {
    var key := a.key(entries[i].url);
    if i > 0 {
      assert entries[1..][i - 1] == entries[i];
      assert DistinctKeys(entries[1..], a) by {
        assert forall j :: 0 <= j < |entries[1..]| ==> entries[1..][j] == entries[j + 1];
      }
      FoundAt(entries[1..], i - 1, a);
      assert entries[..i] == [entries[0]] + entries[1..][..i - 1] && entries[1..][i..] == entries[i + 1..];
    } else {
      forall e <- entries[1..]
        ensures a.key(e.url) != key
      {
        var j :| 0 <= j < |entries[1..]| && entries[1..][j] == e;
        assert entries[j + 1] == e;
      }
      assert !Lists(entries[1..], key, a);
      RestSame(entries[1..], key, a);
    }
  }

  lemma BackInPlace(entries: seq<Entry>, i: nat, entry: Entry)
    requires i < |entries| && NewestFirst(entries) && entry.lastVisitedAt == entries[i].lastVisitedAt
    ensures Spliced(entries[..i] + entries[i + 1..], entry) == entries[i := entry]
  {
    var rest := entries[..i] + entries[i + 1..];
    assert forall k :: 0 <= k < i ==> rest[k] == entries[k];
    assert i < |rest| ==> rest[i] == entries[i + 1];
    SplicedAt(rest, entry, i);
    assert rest[..i] == entries[..i] && rest[i..] == entries[i + 1..];
  }

  /** A visit to a page that is listed with a later one leaves the list of pages as it is. */
  lemma LateVisit(entries: seq<Entry>, visit: Visit, a: Addresses)
    requires IsHistory(entries, a) && ListsLater(entries, a.key(visit.url), visit.at, a)
    ensures Pages(Upsert(entries, visit, true, a), a) == Pages(entries, a)
  {
    var existing :| existing in entries && a.key(existing.url) == a.key(visit.url) && existing.lastVisitedAt > visit.at;
    var i :| 0 <= i < |entries| && entries[i] == existing;
    var entry := Visited(Some(existing), visit, true, a);
    FoundAt(entries, i, a);
    BackInPlace(entries, i, entry);
    assert Upsert(entries, visit, true, a) == entries[i := entry];
  }

  /** So does one that is older than 50 others. */
  lemma FullVisit(entries: seq<Entry>, visit: Visit, a: Addresses)
    requires IsHistory(entries, a) && IsFullOfLater(entries, visit.at)
    ensures Pages(Upsert(entries, visit, true, a), a) == Pages(entries, a)
  {
    if Lists(entries, a.key(visit.url), a) {
      LateVisit(entries, visit, a);
    } else {
      FindIs(entries, a.key(visit.url), a);
      RestSame(entries, a.key(visit.url), a);
      SplicedLast(entries, Entry(visit.url, visit.at, None));
      assert Capped(entries + [Entry(visit.url, visit.at, None)]) == entries;
    }
  }

  lemma SamePageAt(x: seq<Entry>, y: seq<Entry>, a: Addresses)
    requires Pages(x, a) == Pages(y, a)
    ensures |x| == |y|
    ensures forall i :: 0 <= i < |x| ==> a.key(x[i].url) == a.key(y[i].url) && x[i].lastVisitedAt == y[i].lastVisitedAt
  {
    assert |x| == |Pages(x, a)| == |Pages(y, a)| == |y|;
    forall i | 0 <= i < |x|
      ensures a.key(x[i].url) == a.key(y[i].url) && x[i].lastVisitedAt == y[i].lastVisitedAt
    {
      assert Pages(x, a)[i] == Pages(y, a)[i];
    }
  }

  lemma SamePagesListLater(x: seq<Entry>, y: seq<Entry>, key: string, at: int, a: Addresses)
    requires Pages(x, a) == Pages(y, a) && ListsLater(x, key, at, a)
    ensures ListsLater(y, key, at, a)
  {
    SamePageAt(x, y, a);
    var entry :| entry in x && a.key(entry.url) == key && entry.lastVisitedAt > at;
    var i :| 0 <= i < |x| && x[i] == entry;
    assert y[i] in y;
  }

  lemma SamePagesAreFull(x: seq<Entry>, y: seq<Entry>, at: int, a: Addresses)
    requires Pages(x, a) == Pages(y, a) && IsHistory(x, a) && IsFullOfLater(x, at)
    ensures IsHistory(y, a) && IsFullOfLater(y, at)
  {
    SamePageAt(x, y, a);
    assert forall i :: 0 <= i < |x| ==> x[i] in x;
  }

  lemma SamePagesAreHistory(x: seq<Entry>, y: seq<Entry>, a: Addresses)
    requires Pages(x, a) == Pages(y, a) && IsHistory(x, a)
    ensures IsHistory(y, a)
  {
    SamePageAt(x, y, a);
  }

  /** Equal pages make equal pages. */
  lemma PagesDecide(x: seq<Entry>, y: seq<Entry>, visit: Visit, a: Addresses)
    requires IsHistory(x, a) && IsHistory(y, a) && Pages(x, a) == Pages(y, a)
    requires forall entry <- x :: entry.lastVisitedAt != visit.at
    ensures Pages(Upsert(x, visit, true, a), a) == Pages(Upsert(y, visit, true, a), a)
    ensures IsHistory(Upsert(x, visit, true, a), a)
  {
    var times := OwnTimes(x, a);
    OwnTimesRepresent(x, a);
    SameOwnTimes(x, y, a);
    OwnTimesRepresent(y, a);
    OwnTimesAre(x, a);
    assert FreshTime(times, a.key(visit.url), visit.at);
    OrderedInsertionRefines(x, times, visit, a);
    OrderedInsertionRefines(y, times, visit, a);
    RepresentationIsUnique(Upsert(x, visit, true, a), Upsert(y, visit, true, a), Latest(times, a.key(visit.url), visit.at), a);
  }

  lemma {:induction false} SameOwnTimes(x: seq<Entry>, y: seq<Entry>, a: Addresses)
    requires Pages(x, a) == Pages(y, a)
    ensures OwnTimes(x, a) == OwnTimes(y, a)
  {
    assert |x| == |Pages(x, a)| == |Pages(y, a)| == |y|;
    if x != [] {
      assert Pages(x, a)[0] == Pages(y, a)[0];
      assert Pages(x[1..], a) == Pages(x, a)[1..] && Pages(y[1..], a) == Pages(y, a)[1..];
      SameOwnTimes(x[1..], y[1..], a);
    }
  }

  /** Among later visits a tie changes nothing. */
  lemma FullTie(entries: seq<Entry>, first: Visit, second: Visit, a: Addresses)
    requires IsHistory(entries, a) && first.at == second.at && IsFullOfLater(entries, first.at)
    ensures Pages(Upsert(Upsert(entries, first, true, a), second, true, a), a) == Pages(entries, a)
  {
    var entries' := Upsert(entries, first, true, a);
    FullVisit(entries, first, a);
    SamePagesAreFull(entries, entries', first.at, a);
    FullVisit(entries', second, a);
  }

  /** The later entries of a list stay where they are. */
  lemma LaterStays(entries: seq<Entry>, visit: Visit, key: string, a: Addresses)
    requires IsHistory(entries, a) && forall entry <- entries :: entry.lastVisitedAt != visit.at
    requires ListsLater(entries, key, visit.at, a)
    ensures ListsLater(Upsert(entries, visit, true, a), key, visit.at, a)
  {
    var entries' := Upsert(entries, visit, true, a);
    if ListsLater(entries, a.key(visit.url), visit.at, a) {
      LateVisit(entries, visit, a);
      SamePagesListLater(entries, entries', key, visit.at, a);
    } else if IsFullOfLater(entries, visit.at) {
      FullVisit(entries, visit, a);
      SamePagesListLater(entries, entries', key, visit.at, a);
    } else {
      var n := LaterCount(entries, visit.at);
      VisitStandsAt(entries, visit, a);
      LaterCountIs(entries, visit.at);
      var entry :| entry in entries && a.key(entry.url) == key && entry.lastVisitedAt > visit.at;
      var i :| 0 <= i < |entries| && entries[i] == entry;
      assert entries'[i] == entries'[..n][i] == entries[..n][i];
      assert entries'[i] in entries';
    }
  }

  lemma LateTie(entries: seq<Entry>, first: Visit, second: Visit, a: Addresses)
    requires IsHistory(entries, a) && first.at == second.at && ListsLater(entries, a.key(first.url), first.at, a)
    requires forall entry <- entries :: entry.lastVisitedAt != first.at
    ensures Pages(Upsert(Upsert(entries, first, true, a), second, true, a), a) == Pages(Upsert(entries, second, true, a), a)
    ensures Pages(Upsert(Upsert(entries, second, true, a), first, true, a), a) == Pages(Upsert(entries, second, true, a), a)
  {
    LateVisit(entries, first, a);
    SamePagesAreHistory(entries, Upsert(entries, first, true, a), a);
    PagesDecide(entries, Upsert(entries, first, true, a), second, a);
    LaterStays(entries, second, a.key(first.url), a);
    LateVisit(Upsert(entries, second, true, a), first, a);
  }

  /** At equal times the order can matter, and exactly when it does: neither page is listed with a later
      visit already, and there is room for a page of that time among the newest 50. */
  lemma TieMattersExactly(entries: seq<Entry>, first: Visit, second: Visit, a: Addresses)
    requires IsHistory(entries, a) && first.at == second.at && a.key(first.url) != a.key(second.url)
    requires forall entry <- entries :: entry.lastVisitedAt != first.at
    ensures Pages(Upsert(Upsert(entries, first, true, a), second, true, a), a)
         != Pages(Upsert(Upsert(entries, second, true, a), first, true, a), a)
       <==> && !ListsLater(entries, a.key(first.url), first.at, a) && !ListsLater(entries, a.key(second.url), first.at, a)
            && !IsFullOfLater(entries, first.at)
  {
    if IsFullOfLater(entries, first.at) {
      FullTie(entries, first, second, a);
      FullTie(entries, second, first, a);
    } else if ListsLater(entries, a.key(first.url), first.at, a) {
      LateTie(entries, first, second, a);
    } else if ListsLater(entries, a.key(second.url), first.at, a) {
      LateTie(entries, second, first, a);
    } else {
      var n := LaterCount(entries, first.at);
      SecondGoesBehind(entries, first, second, a);
      SecondGoesBehind(entries, second, first, a);
      var x := Upsert(Upsert(entries, first, true, a), second, true, a);
      var y := Upsert(Upsert(entries, second, true, a), first, true, a);
      assert Pages(x, a)[n] != Pages(y, a)[n];
    }
  }

  // ----- Buffering changes nothing -----

  predicate OlderThan(entries: seq<Entry>, at: int) {
    forall entry <- entries :: entry.lastVisitedAt < at
  }

  /** A visit newer than all others goes to the front either way. */
  lemma NewestGoesFirst(entries: seq<Entry>, visit: Visit, a: Addresses)
    requires OlderThan(entries, visit.at)
    ensures Upsert(entries, visit, true, a) == Upsert(entries, visit, false, a)
    ensures forall entry <- Upsert(entries, visit, false, a) :: entry.lastVisitedAt <= visit.at
  {
    var key := a.key(visit.url);
    FindIs(entries, key, a);
    RestHas(entries, key, a);
    var rest, entry := Rest(entries, key, a), Visited(Find(entries, key, a), visit, false, a);
    assert rest != [] ==> rest[0] in rest;
    assert forall e <- [entry] + rest :: e.lastVisitedAt <= visit.at;
    assert forall e <- Capped([entry] + rest) :: e in [entry] + rest;
  }

  predicate TimesAscend(visits: seq<Visit>) {
    forall i, j :: 0 <= i < j < |visits| ==> visits[i].at < visits[j].at
  }

  /** Visits recorded as they happen leave the same history, titles and addresses included, as the same
      visits buffered and then flushed by time. */
  lemma {:induction false} BufferingChangesNothing(entries: seq<Entry>, visits: seq<Visit>, a: Addresses)
    requires TimesAscend(visits) && forall visit <- visits :: OlderThan(entries, visit.at)
    ensures UpsertAll(entries, visits, true, a) == UpsertAll(entries, visits, false, a)
    ensures visits != [] ==> forall entry <- UpsertAll(entries, visits, false, a) :: entry.lastVisitedAt <= visits[|visits| - 1].at
  {
    if visits != [] {
      var front, last := visits[..|visits| - 1], visits[|visits| - 1];
      assert last in visits;
      assert forall visit <- front :: visit in visits;
      BufferingChangesNothing(entries, front, a);
      if front != [] {
        assert front[|front| - 1].at < last.at;
      }
      NewestGoesFirst(UpsertAll(entries, front, false, a), last, a);
    }
  }

  // ----- Visits kept until a thread's project is known -----

  const PENDING_MAX_PER_THREAD: nat := 10
  const PENDING_MAX_THREADS: nat := 20

  /** A record of visits by thread; `threads` is its keys in the order they were added. */
  datatype Pending = Pending(visits: map<string, seq<Visit>>, threads: seq<string>) {
    ghost predicate Valid() {
      && DistinctThreads(threads) && |threads| <= PENDING_MAX_THREADS
      && (forall thread :: thread in threads <==> thread in visits)
      && (forall thread <- visits :: |visits[thread]| <= PENDING_MAX_PER_THREAD)
    }

    function Of(thread: string): seq<Visit> {
      if thread in visits then visits[thread] else []
    }

    /** `addPendingByThread`: a thread keeps its last 10 visits, and past 20 threads the one that has
        waited longest is dropped. */
    function Add(thread: string, visit: Visit): Pending {
      var next := visits[thread := LastPending(Of(thread) + [visit])];
      var keys := if thread in visits then threads else threads + [thread];
      if |keys| > PENDING_MAX_THREADS && keys[0] != thread then Pending(next - {keys[0]}, keys[1..]) else Pending(next, keys)
    }

    function Remove(thread: string): Pending {
      Pending(visits - {thread}, WithoutThread(threads, thread))
    }
  }

  predicate DistinctThreads(threads: seq<string>) {
    forall i, j :: 0 <= i < j < |threads| ==> threads[i] != threads[j]
  }

  function LastPending(visits: seq<Visit>): seq<Visit> {
    if |visits| > PENDING_MAX_PER_THREAD then visits[|visits| - PENDING_MAX_PER_THREAD..] else visits
  }

  function WithoutThread(threads: seq<string>, thread: string): seq<string> {
    if threads == [] then []
    else (if threads[0] != thread then [threads[0]] else []) + WithoutThread(threads[1..], thread)
  }

  lemma DropFirst(threads: seq<string>)
    requires threads != [] && DistinctThreads(threads)
    ensures forall thread :: thread in threads[1..] <==> thread in threads && thread != threads[0]
    ensures DistinctThreads(threads[1..])
  {
    assert threads == [threads[0]] + threads[1..];
    assert forall i :: 0 <= i < |threads[1..]| ==> threads[1..][i] == threads[i + 1];
  }

  lemma AppendThread(threads: seq<string>, thread: string)
    requires DistinctThreads(threads) && thread !in threads
    ensures DistinctThreads(threads + [thread])
    ensures forall other :: other in threads + [thread] <==> other in threads || other == thread
  {
    assert forall i :: 0 <= i < |threads| ==> threads[i] in threads;
  }

  lemma {:induction false} WithoutThreadIs(threads: seq<string>, thread: string)
    requires DistinctThreads(threads)
    ensures forall other :: other in WithoutThread(threads, thread) <==> other in threads && other != thread
    ensures DistinctThreads(WithoutThread(threads, thread)) && |WithoutThread(threads, thread)| <= |threads|
  {
    if threads != [] {
      DropFirst(threads);
      WithoutThreadIs(threads[1..], thread);
      assert threads == [threads[0]] + threads[1..];
      var rest := WithoutThread(threads[1..], thread);
      assert forall i :: 0 <= i < |rest| ==> rest[i] in rest;
    }
  }

  predicate IsFullWithout(p: Pending, thread: string) {
    thread !in p.visits && |p.threads| == 20
  }

  /** A thread keeps its newest 10 visits in the order they came, the new one last. */
  lemma AddKeepsNewest(p: Pending, thread: string, visit: Visit)
    requires p.Valid()
    ensures var all, kept := p.Of(thread) + [visit], p.Add(thread, visit).Of(thread);
      |kept| == (if |all| <= 10 then |all| else 10) && kept == all[|all| - |kept|..]
  {
    if IsFullWithout(p, thread) {
      assert (p.threads + [thread])[0] == p.threads[0] && p.threads[0] in p.threads;
    }
  }

  /** Every other thread keeps all of its visits, except that a thread that is new beside 20 others drops the one
      that has waited longest. */
  lemma AddKeepsOthers(p: Pending, thread: string, visit: Visit, other: string)
    requires p.Valid() && other != thread
    ensures p.Add(thread, visit).Of(other) == if IsFullWithout(p, thread) && other == p.threads[0] then [] else p.Of(other)
  {
    if thread !in p.visits && |p.threads| > 0 {
      assert (p.threads + [thread])[0] == p.threads[0] && p.threads[0] in p.threads;
    }
  }

  /** The threads stay in the order in which they were added, and within the bounds. */
  lemma AddKeepsBounds(p: Pending, thread: string, visit: Visit)
    requires p.Valid()
    ensures p.Add(thread, visit).Valid()
    ensures p.Add(thread, visit).threads == (if IsFullWithout(p, thread) then p.threads[1..] else p.threads) + if thread in p.visits then [] else [thread]
  {
    if thread !in p.visits {
      AppendThread(p.threads, thread);
      var keys := p.threads + [thread];
      if |keys| > PENDING_MAX_THREADS {
        assert keys[0] == p.threads[0] && p.threads[0] in p.threads;
        DropFirst(keys);
      }
    }
  }

  lemma RemoveKeepsBounds(p: Pending, thread: string)
    requires p.Valid()
    ensures p.Remove(thread).Valid()
  {
    WithoutThreadIs(p.threads, thread);
  }

  /** Removing a thread forgets its visits and nothing else: the others keep theirs, and their order. */
  lemma RemoveForgetsOne(p: Pending, thread: string)
    requires p.Valid()
    ensures p.Remove(thread).Of(thread) == []
    ensures forall other :: other != thread ==> p.Remove(thread).Of(other) == p.Of(other)
    ensures forall i :: 0 <= i < |p.threads| && p.threads[i] == thread ==> p.Remove(thread).threads == p.threads[..i] + p.threads[i + 1..]
    ensures thread !in p.visits ==> p.Remove(thread).threads == p.threads
  {
    if thread in p.threads {
      var i :| 0 <= i < |p.threads| && p.threads[i] == thread;
      WithoutThreadAt(p.threads, i);
    } else {
      WithoutOtherThread(p.threads, thread);
    }
  }

  lemma {:induction false} WithoutOtherThread(threads: seq<string>, thread: string)
    requires thread !in threads
    ensures WithoutThread(threads, thread) == threads
  {
    if threads != [] {
      assert threads[0] in threads && forall other <- threads[1..] :: other in threads;
      WithoutOtherThread(threads[1..], thread);
    }
  }

  lemma {:induction false} WithoutThreadAt(threads: seq<string>, i: nat)
    requires DistinctThreads(threads) && i < |threads|
    ensures WithoutThread(threads, threads[i]) == threads[..i] + threads[i + 1..]
  {
    DropFirst(threads);
    if i == 0 {
      WithoutOtherThread(threads[1..], threads[0]);
    } else {
      WithoutThreadAt(threads[1..], i - 1);
      assert threads[..i] == [threads[0]] + threads[1..][..i - 1] && threads[1..][i..] == threads[i + 1..];
    }
  }

  // ----- At most 20 projects -----

  const MAX_PROJECTS: nat := 20

  /** The order in which projects are kept: by newest visit, and among equal ones as they came. */
  predicate Precedes(newest: seq<int>, i: int, j: int)
    requires 0 <= i < |newest| && 0 <= j < |newest|
  {
    newest[i] > newest[j] || (newest[i] == newest[j] && i < j)
  }

  predicate AreIndices(ranked: seq<nat>, newest: seq<int>) {
    forall r :: 0 <= r < |ranked| ==> ranked[r] < |newest|
  }

  function InsertRank(ranked: seq<nat>, i: nat, newest: seq<int>): seq<nat>
    requires i < |newest| && AreIndices(ranked, newest)
  {
    if ranked == [] then [i]
    else if newest[ranked[0]] < newest[i] then [i] + ranked
    else [ranked[0]] + InsertRank(ranked[1..], i, newest)
  }

  /** A stable sort of the positions, the newest first. */
  function Ranked(newest: seq<int>): (ranked: seq<nat>)
    ensures AreIndices(ranked, newest) && |ranked| == |newest|
  {
    if newest == [] then []
    else
      var n := |newest| - 1;
      InsertRankIs(Ranked(newest[..n]), n, newest);
      InsertRank(Ranked(newest[..n]), n, newest)
  }

  lemma {:induction false} InsertRankIs(ranked: seq<nat>, i: nat, newest: seq<int>)
    requires i < |newest| && AreIndices(ranked, newest)
    ensures |InsertRank(ranked, i, newest)| == |ranked| + 1 && AreIndices(InsertRank(ranked, i, newest), newest)
    ensures forall j :: j in InsertRank(ranked, i, newest) <==> j in ranked || j == i
  {
    if ranked != [] {
      InsertRankIs(ranked[1..], i, newest);
      assert ranked == [ranked[0]] + ranked[1..];
    }
  }

  ghost predicate InRankOrder(ranked: seq<nat>, newest: seq<int>) {
    AreIndices(ranked, newest) && forall a, b :: 0 <= a < b < |ranked| ==> Precedes(newest, ranked[a], ranked[b])
  }

  lemma {:induction false} InsertRankInOrder(ranked: seq<nat>, i: nat, newest: seq<int>)
    requires i < |newest| && InRankOrder(ranked, newest) && forall j <- ranked :: j < i
    ensures InRankOrder(InsertRank(ranked, i, newest), newest)
  {
    InsertRankIs(ranked, i, newest);
    if ranked != [] {
      var first, rest := ranked[0], ranked[1..];
      assert forall a :: 0 <= a < |rest| ==> rest[a] == ranked[a + 1];
      if newest[first] < newest[i] {
        assert forall a :: 0 <= a < |ranked| ==> newest[ranked[a]] < newest[i];
      } else {
        assert forall j <- rest :: j in ranked;
        InsertRankInOrder(rest, i, newest);
        InsertRankIs(rest, i, newest);
        var tail := InsertRank(rest, i, newest);
        forall a | 0 <= a < |tail|
          ensures Precedes(newest, first, tail[a])
        {
          assert tail[a] in tail;
          assert first in ranked;
        }
      }
    }
  }

  lemma {:induction false} RankedInOrder(newest: seq<int>)
    ensures InRankOrder(Ranked(newest), newest)
    ensures forall i: nat :: i in Ranked(newest) <==> i < |newest|
  {
    if newest != [] {
      var n := |newest| - 1;
      RankedInOrder(newest[..n]);
      InsertRankIs(Ranked(newest[..n]), n, newest);
      InsertRankInOrder(Ranked(newest[..n]), n, newest);
    }
  }

  lemma PlaceInRank(newest: seq<int>, j: nat) returns (r: nat)
    requires j < |newest|
    ensures r < |newest| && Ranked(newest)[r] == j
  {
    RankedInOrder(newest);
    assert j in Ranked(newest);
    r :| 0 <= r < |Ranked(newest)| && Ranked(newest)[r] == j;
  }

  lemma LastIsOldest(newest: seq<int>, r: nat)
    requires r < |newest|
    ensures newest[Ranked(newest)[r]] >= newest[Ranked(newest)[|newest| - 1]]
  {
    RankedInOrder(newest);
    if r < |newest| - 1 {
      assert Precedes(newest, Ranked(newest)[r], Ranked(newest)[|newest| - 1]);
    }
  }

  /** The projects that go before one. */
  function Ahead(newest: seq<int>, j: nat): set<nat>
    requires j < |newest|
  {
    set i: nat | i < |newest| && Precedes(newest, i, j)
  }

  function RankSet(ranked: seq<nat>): set<nat> {
    set i | i in ranked
  }

  lemma {:induction false} DistinctElements(ranked: seq<nat>, newest: seq<int>)
    requires InRankOrder(ranked, newest)
    ensures |RankSet(ranked)| == |ranked|
  {
    if ranked != [] {
      var last := ranked[|ranked| - 1];
      var front := ranked[..|ranked| - 1];
      DistinctElements(front, newest);
      assert ranked == front + [last];
      assert RankSet(ranked) == RankSet(front) + {last};
      assert last !in front;
    }
  }

  /** A position's place in the sort is the number of those that go before it. */
  lemma RankIsCount(newest: seq<int>, r: nat)
    requires r < |newest|
    ensures |Ahead(newest, Ranked(newest)[r])| == r
  {
    var ranked := Ranked(newest);
    RankedInOrder(newest);
    assert Ahead(newest, ranked[r]) == RankSet(ranked[..r]) by {
      forall i: nat
        ensures i in Ahead(newest, ranked[r]) <==> i in ranked[..r]
      {
        AheadIsFront(newest, r, i);
      }
    }
    DistinctElements(ranked[..r], newest);
  }

  lemma PrecedesByPlace(newest: seq<int>, ranked: seq<nat>, q: nat, r: nat)
    requires InRankOrder(ranked, newest) && q < |ranked| && r < |ranked|
    ensures Precedes(newest, ranked[q], ranked[r]) <==> q < r
    ensures ranked[q] == ranked[r] <==> q == r
  {
    if r < q {
      assert Precedes(newest, ranked[r], ranked[q]);
    }
  }

  lemma InFrontByPlace(newest: seq<int>, ranked: seq<nat>, q: nat, r: nat)
    requires InRankOrder(ranked, newest) && q < |ranked| && r < |ranked|
    ensures ranked[q] in ranked[..r] <==> q < r
  {
    if q < r {
      assert ranked[..r][q] == ranked[q];
    } else {
      forall p | 0 <= p < r
        ensures ranked[..r][p] != ranked[q]
      {
        PrecedesByPlace(newest, ranked, p, q);
      }
    }
  }

  lemma AheadIsFront(newest: seq<int>, r: nat, i: nat)
    requires r < |newest|
    ensures i in Ahead(newest, Ranked(newest)[r]) <==> i in Ranked(newest)[..r]
  {
    var ranked := Ranked(newest);
    RankedInOrder(newest);
    if i < |newest| {
      var q := PlaceInRank(newest, i);
      PrecedesByPlace(newest, ranked, q, r);
      InFrontByPlace(newest, ranked, q, r);
    } else {
      OnlyIndices(ranked, newest, r, i);
    }
  }

  lemma OnlyIndices(ranked: seq<nat>, newest: seq<int>, r: nat, i: nat)
    requires AreIndices(ranked, newest) && r <= |ranked| && i >= |newest|
    ensures i !in ranked[..r]
  {
  }

  /** The projects in the order in which they were added, with their histories. */
  datatype Projects = Projects(keys: seq<string>, lists: map<string, seq<Entry>>) {
    ghost predicate Valid() {
      DistinctThreads(keys) && forall key :: key in keys <==> key in lists
    }

    ghost predicate Bounded() {
      Valid() && |keys| <= MAX_PROJECTS
    }

    function Of(project: string): seq<Entry> {
      if project in lists then lists[project] else []
    }

    function Newest(): seq<int> {
      seq(|keys|, i requires 0 <= i < |keys| => NewestIn(Of(keys[i])))
    }

    function With(project: string, entries: seq<Entry>): Projects {
      Projects(if project in keys then keys else keys + [project], lists[project := entries])
    }

    /** `evictExcessProjects`. */
    function Evicted(): Projects {
      if |keys| <= MAX_PROJECTS then this
      else
        var kept := KeysAt(Ranked(Newest())[..MAX_PROJECTS]);
        Projects(kept, map key | key in kept :: Of(key))
    }

    function KeysAt(ranked: seq<nat>): seq<string>
      requires AreIndices(ranked, Newest())
    {
      seq(|ranked|, r requires 0 <= r < |ranked| => assert ranked[r] in ranked; keys[ranked[r]])
    }
  }

  function NewestIn(entries: seq<Entry>): int {
    if entries == [] then 0 else entries[0].lastVisitedAt
  }

  lemma KeptAre(p: Projects, j: nat)
    requires p.Valid() && |p.keys| > MAX_PROJECTS && j < |p.keys|
    ensures p.keys[j] in p.Evicted().keys <==> |Ahead(p.Newest(), j)| < MAX_PROJECTS
  {
    var newest := p.Newest();
    RankedInOrder(newest);
    var ranked := Ranked(newest);
    var r := PlaceInRank(newest, j);
    RankIsCount(newest, r);
    var kept := p.Evicted().keys;
    if r < MAX_PROJECTS {
      assert kept[r] == p.keys[j];
    } else {
      forall q | 0 <= q < MAX_PROJECTS
        ensures kept[q] != p.keys[j]
      {
        assert kept[q] == p.keys[ranked[q]] && Precedes(newest, ranked[q], ranked[r]);
      }
    }
  }

  /** Eviction keeps a project exactly when fewer than 20 go before it, and a kept one as it was. */
  lemma EvictionKeepsExactly(p: Projects, j: nat)
    requires p.Valid() && j < |p.keys|
    ensures p.keys[j] in p.Evicted().lists <==> |Ahead(p.Newest(), j)| < MAX_PROJECTS
    ensures p.keys[j] in p.Evicted().lists ==> p.Evicted().lists[p.keys[j]] == p.lists[p.keys[j]]
  {
    assert p.keys[j] in p.keys;
    if |p.keys| <= MAX_PROJECTS {
      FewAhead(p.Newest(), j);
    } else {
      KeptAre(p, j);
    }
  }

  lemma FewAhead(newest: seq<int>, j: nat)
    requires j < |newest|
    ensures |Ahead(newest, j)| < |newest|
  {
    var r := PlaceInRank(newest, j);
    RankIsCount(newest, r);
  }

  lemma EvictionBounds(p: Projects)
    requires p.Valid()
    ensures p.Evicted().Bounded()
    ensures forall key <- p.Evicted().lists :: key in p.lists && p.Evicted().lists[key] == p.lists[key]
  {
    if |p.keys| > MAX_PROJECTS {
      var newest := p.Newest();
      RankedInOrder(newest);
      var ranked, kept := Ranked(newest)[..MAX_PROJECTS], p.Evicted().keys;
      forall a, b | 0 <= a < b < |kept|
        ensures kept[a] != kept[b]
      {
        assert Precedes(newest, Ranked(newest)[a], Ranked(newest)[b]);
        assert kept[a] == p.keys[ranked[a]] && kept[b] == p.keys[ranked[b]];
      }
      forall key <- kept
        ensures key in p.lists
      {
        var r :| 0 <= r < |kept| && kept[r] == key;
        assert p.keys[ranked[r]] in p.keys;
      }
    }
  }

  // ----- Recording visits of a project -----

  function Recorded(p: Projects, project: string, visit: Visit, ordered: bool, a: Addresses): Projects {
    p.With(project, Upsert(p.Of(project), visit, ordered, a)).Evicted()
  }

  /** A flush: the visits one after another, each with its eviction. */
  function RecordedAll(p: Projects, project: string, visits: seq<Visit>, a: Addresses): Projects {
    if visits == [] then p
    else Recorded(RecordedAll(p, project, visits[..|visits| - 1], a), project, visits[|visits| - 1], true, a)
  }

  lemma WithKeeps(p: Projects, project: string, entries: seq<Entry>)
    requires p.Valid()
    ensures p.With(project, entries).Valid()
  {
    if project !in p.keys {
      AppendThread(p.keys, project);
    }
  }

  /** The bound on projects holds after every visit. */
  lemma RecordedIsBounded(p: Projects, project: string, visit: Visit, ordered: bool, a: Addresses)
    requires p.Bounded()
    ensures Recorded(p, project, visit, ordered, a).Bounded()
  {
    WithKeeps(p, project, Upsert(p.Of(project), visit, ordered, a));
    EvictionBounds(p.With(project, Upsert(p.Of(project), visit, ordered, a)));
  }

  predicate HasRoom(p: Projects, project: string) {
    project in p.keys || |p.keys| < MAX_PROJECTS
  }

  /** With room, a flush adds the visits to the project's history and changes no other. */
  lemma {:induction false} FlushWithRoom(p: Projects, project: string, visits: seq<Visit>, a: Addresses)
    requires p.Bounded() && HasRoom(p, project)
    ensures var p' := RecordedAll(p, project, visits, a);
      && p'.Bounded() && HasRoom(p', project)
      && p'.lists == if visits == [] then p.lists else p.lists[project := UpsertAll(p.Of(project), visits, true, a)]
  {
    if visits != [] {
      var front, last := visits[..|visits| - 1], visits[|visits| - 1];
      FlushWithRoom(p, project, front, a);
      VisitWithRoom(RecordedAll(p, project, front, a), project, last, true, a);
      SetTwice(p.lists, project, UpsertAll(p.Of(project), front, true, a), UpsertAll(p.Of(project), visits, true, a));
    }
  }

  lemma SetTwice(lists: map<string, seq<Entry>>, project: string, before: seq<Entry>, after: seq<Entry>)
    ensures lists[project := before][project := after] == lists[project := after]
  {
  }

  lemma VisitWithRoom(p: Projects, project: string, visit: Visit, ordered: bool, a: Addresses)
    requires p.Bounded() && HasRoom(p, project)
    ensures var p' := Recorded(p, project, visit, ordered, a);
      && p'.Bounded() && project in p'.keys
      && p'.lists == p.lists[project := Upsert(p.Of(project), visit, ordered, a)]
  {
    WithKeeps(p, project, Upsert(p.Of(project), visit, ordered, a));
  }

  /** The project that goes last. */
  function LastRanked(p: Projects): string
    requires p.keys != []
  {
    p.keys[Ranked(p.Newest())[|p.keys| - 1]]
  }

  lemma {:induction false} InsertRankAt(ranked: seq<nat>, i: nat, newest: seq<int>, n: nat)
    requires i < |newest| && AreIndices(ranked, newest) && n <= |ranked|
    requires forall r :: 0 <= r < n ==> newest[ranked[r]] >= newest[i]
    requires n < |ranked| ==> newest[ranked[n]] < newest[i]
    ensures InsertRank(ranked, i, newest) == ranked[..n] + [i] + ranked[n..]
  {
    if n > 0 {
      assert forall r :: 0 <= r < n - 1 ==> ranked[1..][r] == ranked[r + 1];
      InsertRankAt(ranked[1..], i, newest, n - 1);
      SplitsBehindFirst(ranked, [i], n);
    }
  }

  /** Where a new position goes in a sorted list. */
  lemma {:induction false} PlaceOf(ranked: seq<nat>, i: nat, newest: seq<int>) returns (n: nat)
    requires i < |newest| && AreIndices(ranked, newest)
    ensures n <= |ranked|
    ensures forall r :: 0 <= r < n ==> newest[ranked[r]] >= newest[i]
    ensures n < |ranked| ==> newest[ranked[n]] < newest[i]
  {
    n := 0;
    while n < |ranked| && newest[ranked[n]] >= newest[i]
      invariant n <= |ranked| && forall r :: 0 <= r < n ==> newest[ranked[r]] >= newest[i]
    {
      n := n + 1;
    }
  }

  /** One more value at the end of 20: it is left out if it is no newer than the last, and the last is
      left out if it is. */
  lemma OneTooMany(newest: seq<int>, at: int)
    requires |newest| == MAX_PROJECTS
    ensures var ranked := Ranked(newest);
      var kept := Ranked(newest + [at])[..MAX_PROJECTS];
      if at <= newest[ranked[MAX_PROJECTS - 1]] then kept == ranked
      else forall i: nat :: i in kept <==> i == MAX_PROJECTS || (i < MAX_PROJECTS && i != ranked[MAX_PROJECTS - 1])
  {
    var more, ranked := newest + [at], Ranked(newest);
    RankedInOrder(newest);
    var n := RankedOfMore(newest, at);
    if at <= newest[ranked[MAX_PROJECTS - 1]] {
      LastIsOldest(newest, if n < MAX_PROJECTS then n else MAX_PROJECTS - 1);
    }
    KeptOfMore(newest, ranked, n, Ranked(more)[..MAX_PROJECTS]);
  }

  lemma RankedOfMore(newest: seq<int>, at: int) returns (n: nat)
    ensures var ranked := Ranked(newest);
      && n <= |newest| && Ranked(newest + [at]) == ranked[..n] + [|newest|] + ranked[n..]
      && (forall r :: 0 <= r < n ==> newest[ranked[r]] >= at) && (n < |newest| ==> newest[ranked[n]] < at)
  {
    var more := newest + [at];
    assert more[..|newest|] == newest;
    n := PlaceOf(Ranked(newest), |newest|, more);
    InsertRankAt(Ranked(newest), |newest|, more, n);
  }

  lemma KeptOfMore(newest: seq<int>, ranked: seq<nat>, n: nat, kept: seq<nat>)
    requires |newest| == MAX_PROJECTS == |ranked| && InRankOrder(ranked, newest) && n <= MAX_PROJECTS
    requires forall i: nat :: i in ranked <==> i < MAX_PROJECTS
    requires kept == (ranked[..n] + [MAX_PROJECTS] + ranked[n..])[..MAX_PROJECTS]
    ensures n == MAX_PROJECTS ==> kept == ranked
    ensures n < MAX_PROJECTS ==>
      forall i: nat :: i in kept <==> i == MAX_PROJECTS || (i < MAX_PROJECTS && i != ranked[MAX_PROJECTS - 1])
  {
    var last := MAX_PROJECTS - 1;
    if n < MAX_PROJECTS {
      assert kept == ranked[..n] + [MAX_PROJECTS] + ranked[n..last];
      assert ranked[..last] == ranked[..n] + ranked[n..last];
      assert forall i: nat :: i in kept <==> i == MAX_PROJECTS || i in ranked[..last];
      AllButLast(ranked, newest, last);
    }
  }

  lemma AllButLast(ranked: seq<nat>, newest: seq<int>, last: nat)
    requires InRankOrder(ranked, newest) && |ranked| == last + 1
    ensures forall i :: i in ranked[..last] <==> i in ranked && i != ranked[last]
  {
    assert ranked == ranked[..last] + [ranked[last]];
    forall i <- ranked[..last]
      ensures i != ranked[last]
    {
      var r :| 0 <= r < last && ranked[r] == i;
      assert Precedes(newest, ranked[r], ranked[last]);
    }
  }

  lemma FirstUpsert(visit: Visit, ordered: bool, a: Addresses)
    ensures Upsert([], visit, ordered, a) == [Entry(visit.url, visit.at, None)]
  {
  }

  /** The first visit of a project that is not among 20: it is dropped at once if it is no newer than the
      newest visit of the project that goes last, and takes that project's place if it is. */
  lemma CrowdedVisit(p: Projects, project: string, visit: Visit, ordered: bool, a: Addresses)
    requires p.Bounded() && |p.keys| == MAX_PROJECTS && project !in p.keys
    ensures LastRanked(p) in p.lists
    ensures Recorded(p, project, visit, ordered, a).lists
         == if visit.at <= NewestIn(p.Of(LastRanked(p))) then p.lists
            else (p.lists - {LastRanked(p)})[project := [Entry(visit.url, visit.at, None)]]
  {
    var entries := [Entry(visit.url, visit.at, None)];
    var more := p.With(project, entries);
    FirstUpsert(visit, ordered, a);
    WithKeeps(p, project, entries);
    LastRankedIsThere(p);
    EvictionBounds(more);
    forall key: string
      ensures key in more.Evicted().lists <==>
        if visit.at <= NewestIn(p.Of(LastRanked(p))) then key in p.lists else key == project || (key in p.lists && key != LastRanked(p))
    {
      CrowdedKey(p, project, visit, key);
    }
    ListsLeft(p.lists, project, entries, LastRanked(p), visit.at <= NewestIn(p.Of(LastRanked(p))), more.Evicted().lists);
  }

  lemma ListsLeft(lists: map<string, seq<Entry>>, project: string, entries: seq<Entry>, last: string, dropped: bool, left: map<string, seq<Entry>>)
    requires project !in lists && last in lists
    requires forall key: string :: key in left <==> if dropped then key in lists else key == project || (key in lists && key != last)
    requires forall key <- left :: left[key] == lists[project := entries][key]
    ensures left == if dropped then lists else (lists - {last})[project := entries]
  {
  }

  lemma SortedEndsLast(newest: seq<int>)
    requires newest != [] && forall i, j :: 0 <= i < j < |newest| ==> newest[i] >= newest[j]
    ensures Ranked(newest)[|newest| - 1] == |newest| - 1
  {
    var n := |newest| - 1;
    RankedInOrder(newest);
    var q := PlaceInRank(newest, n);
    if q < n {
      PrecedesByPlace(newest, Ranked(newest), q, n);
    }
  }

  lemma RankedDescends(newest: seq<int>, i: nat, j: nat)
    requires i < j < |newest|
    ensures newest[Ranked(newest)[i]] >= newest[Ranked(newest)[j]]
  {
    RankedInOrder(newest);
    PrecedesByPlace(newest, Ranked(newest), i, j);
  }

  /** Putting the projects in their rank order leaves the same one last. */
  lemma ReorderedKeepsLast(p: Projects, p': Projects)
    requires p.Valid() && |p.keys| == |p'.keys| > 0 && p'.lists == p.lists
    requires forall r :: 0 <= r < |p.keys| ==> p'.keys[r] == p.keys[Ranked(p.Newest())[r]]
    ensures LastRanked(p') == LastRanked(p)
  {
    var newest := p.Newest();
    assert forall r :: 0 <= r < |p.keys| ==> p'.Newest()[r] == newest[Ranked(newest)[r]];
    forall i, j | 0 <= i < j < |p.keys|
      ensures p'.Newest()[i] >= p'.Newest()[j]
    {
      RankedDescends(newest, i, j);
    }
    SortedEndsLast(p'.Newest());
  }

  lemma EvictedReorders(p: Projects, project: string, visit: Visit)
    requires p.Bounded() && |p.keys| == MAX_PROJECTS && project !in p.keys && visit.at <= NewestIn(p.Of(LastRanked(p)))
    ensures var p' := p.With(project, [Entry(visit.url, visit.at, None)]).Evicted();
      |p'.keys| == MAX_PROJECTS && forall r :: 0 <= r < MAX_PROJECTS ==> p'.keys[r] == p.keys[Ranked(p.Newest())[r]]
  {
    var newest, entries := p.Newest(), [Entry(visit.url, visit.at, None)];
    var more := p.With(project, entries);
    WithKeeps(p, project, entries);
    NewestWith(p, project, entries);
    OneTooMany(newest, visit.at);
    LastRankedIsThere(p);
    var ranked := Ranked(more.Newest())[..MAX_PROJECTS];
    assert ranked == Ranked(newest);
    assert more.Evicted().keys == more.KeysAt(ranked);
  }

  /** A visit that is dropped at once leaves the same project last. */
  lemma DroppedKeepsLast(p: Projects, project: string, visit: Visit, ordered: bool, a: Addresses)
    requires p.Bounded() && |p.keys| == MAX_PROJECTS && project !in p.keys && visit.at <= NewestIn(p.Of(LastRanked(p)))
    ensures var p' := Recorded(p, project, visit, ordered, a);
      |p'.keys| == MAX_PROJECTS && p'.lists == p.lists && LastRanked(p') == LastRanked(p)
  {
    CrowdedVisit(p, project, visit, ordered, a);
    FirstUpsert(visit, ordered, a);
    EvictedReorders(p, project, visit);
    ReorderedKeepsLast(p, Recorded(p, project, visit, ordered, a));
  }

  /** The first of some visits that is newer. */
  function FirstNewer(visits: seq<Visit>, at: int): (k: nat)
    ensures k <= |visits|
    ensures forall i :: 0 <= i < k ==> visits[i].at <= at
    ensures k < |visits| ==> visits[k].at > at
  {
    if visits == [] || visits[0].at > at then 0 else 1 + FirstNewer(visits[1..], at)
  }

  lemma FirstNewerOfFront(visits: seq<Visit>, at: int)
    requires visits != []
    ensures var front := visits[..|visits| - 1];
      FirstNewer(visits, at) == if FirstNewer(front, at) < |front| then FirstNewer(front, at)
                                else if visits[|front|].at > at then |front| else |visits|
  {
    var front := visits[..|visits| - 1];
    var k, n := FirstNewer(visits, at), FirstNewer(front, at);
    assert n < |front| ==> visits[n] == front[n];
    assert k < |front| ==> visits[k] == front[k];
    assert forall i :: 0 <= i < |front| ==> visits[i] == front[i];
  }

  lemma StaysFull(p: Projects, project: string, visit: Visit, ordered: bool, a: Addresses)
    requires p.Bounded() && |p.keys| == MAX_PROJECTS
    ensures Recorded(p, project, visit, ordered, a).Bounded() && |Recorded(p, project, visit, ordered, a).keys| == MAX_PROJECTS
  {
    RecordedIsBounded(p, project, visit, ordered, a);
  }

  /** What a flush leaves when 20 other projects have a history: nothing of the visits up to the first one
      that is newer than the newest visit of the project that goes last, and from there on all of them,
      in that project's place. No other history changes. */
  ghost predicate LeftByFlush(p: Projects, project: string, visits: seq<Visit>, a: Addresses, p': Projects)
    requires p.keys != []
  {
    var last := LastRanked(p);
    var k := FirstNewer(visits, NewestIn(p.Of(last)));
    && p'.Bounded() && |p'.keys| == MAX_PROJECTS
    && if k == |visits| then p'.lists == p.lists && LastRanked(p') == last
       else p'.lists == (p.lists - {last})[project := UpsertAll([], visits[k..], true, a)]
  }

  lemma FlushStillDrops(p: Projects, middle: Projects, project: string, visits: seq<Visit>, a: Addresses)
    requires visits != [] && p.Bounded() && |p.keys| == MAX_PROJECTS && project !in p.keys
    requires LeftByFlush(p, project, visits[..|visits| - 1], a, middle)
    requires FirstNewer(visits, NewestIn(p.Of(LastRanked(p)))) == |visits|
    ensures LeftByFlush(p, project, visits, a, Recorded(middle, project, visits[|visits| - 1], true, a))
  {
    var visit := visits[|visits| - 1];
    FirstNewerOfFront(visits, NewestIn(p.Of(LastRanked(p))));
    StaysFull(middle, project, visit, true, a);
    assert project !in middle.lists;
    DroppedKeepsLast(middle, project, visit, true, a);
  }

  lemma FlushGetsIn(p: Projects, middle: Projects, project: string, visits: seq<Visit>, a: Addresses)
    requires visits != [] && p.Bounded() && |p.keys| == MAX_PROJECTS && project !in p.keys
    requires LeftByFlush(p, project, visits[..|visits| - 1], a, middle)
    requires FirstNewer(visits, NewestIn(p.Of(LastRanked(p)))) == |visits| - 1
    ensures LeftByFlush(p, project, visits, a, Recorded(middle, project, visits[|visits| - 1], true, a))
  {
    var visit := visits[|visits| - 1];
    FirstNewerOfFront(visits, NewestIn(p.Of(LastRanked(p))));
    StaysFull(middle, project, visit, true, a);
    assert project !in middle.lists;
    CrowdedVisit(middle, project, visit, true, a);
    OneVisit(visits, a);
  }

  lemma FlushStaysIn(p: Projects, middle: Projects, project: string, visits: seq<Visit>, a: Addresses)
    requires visits != [] && p.Bounded() && |p.keys| == MAX_PROJECTS && project !in p.keys
    requires LeftByFlush(p, project, visits[..|visits| - 1], a, middle)
    requires FirstNewer(visits, NewestIn(p.Of(LastRanked(p)))) < |visits| - 1
    ensures LeftByFlush(p, project, visits, a, Recorded(middle, project, visits[|visits| - 1], true, a))
  {
    var at := NewestIn(p.Of(LastRanked(p)));
    var k := FirstNewer(visits, at);
    FirstNewerOfFront(visits, at);
    StaysFull(middle, project, visits[|visits| - 1], true, a);
    FlushGoesOn(p.lists - {LastRanked(p)}, middle, project, visits, k, a);
  }

  lemma FlushGoesOn(others: map<string, seq<Entry>>, middle: Projects, project: string, visits: seq<Visit>, k: nat, a: Addresses)
    requires middle.Bounded() && k < |visits| - 1
    requires middle.lists == others[project := UpsertAll([], visits[..|visits| - 1][k..], true, a)]
    ensures Recorded(middle, project, visits[|visits| - 1], true, a).lists == others[project := UpsertAll([], visits[k..], true, a)]
  {
    LastOfFlush(middle, project, visits, k, a);
    var now := UpsertAll([], visits[k..], true, a);
    assert middle.lists[project := now] == others[project := now];
  }

  lemma {:induction false} CrowdedFlush(p: Projects, project: string, visits: seq<Visit>, a: Addresses)
    requires p.Bounded() && |p.keys| == MAX_PROJECTS && project !in p.keys
    ensures LeftByFlush(p, project, visits, a, RecordedAll(p, project, visits, a))
  {
    if visits != [] {
      var front := visits[..|visits| - 1];
      var middle := RecordedAll(p, project, front, a);
      CrowdedFlush(p, project, front, a);
      var k := FirstNewer(visits, NewestIn(p.Of(LastRanked(p))));
      if k == |visits| {
        FlushStillDrops(p, middle, project, visits, a);
      } else if k == |visits| - 1 {
        FlushGetsIn(p, middle, project, visits, a);
      } else {
        FlushStaysIn(p, middle, project, visits, a);
      }
    }
  }

  lemma OneVisit(visits: seq<Visit>, a: Addresses)
    requires visits != []
    ensures UpsertAll([], visits[|visits| - 1..], true, a) == [Entry(visits[|visits| - 1].url, visits[|visits| - 1].at, None)]
  {
    var visit := visits[|visits| - 1];
    assert visits[|visits| - 1..] == [visit] && [visit][..0] == [];
    assert UpsertAll([], [visit], true, a) == Upsert([], visit, true, a);
    FirstUpsert(visit, true, a);
  }

  /** One more visit of a project that is listed. */
  lemma LastOfFlush(middle: Projects, project: string, visits: seq<Visit>, k: nat, a: Addresses)
    requires middle.Bounded() && k < |visits| - 1
    requires project in middle.lists && middle.lists[project] == UpsertAll([], visits[..|visits| - 1][k..], true, a)
    ensures Recorded(middle, project, visits[|visits| - 1], true, a).lists == middle.lists[project := UpsertAll([], visits[k..], true, a)]
  {
    var front, visit := visits[..|visits| - 1], visits[|visits| - 1];
    assert visits[k..][..|visits| - k - 1] == front[k..] && visits[k..][|visits| - k - 1] == visit;
    assert project in middle.keys;
  }


  lemma LastRankedIsThere(p: Projects)
    requires p.Valid() && p.keys != []
    ensures LastRanked(p) in p.keys && LastRanked(p) in p.lists
    ensures NewestIn(p.Of(LastRanked(p))) == p.Newest()[Ranked(p.Newest())[|p.keys| - 1]]
  {
  }

  /** Which projects stay when there is one too many. */
  lemma CrowdedKey(p: Projects, project: string, visit: Visit, key: string)
    requires p.Bounded() && |p.keys| == MAX_PROJECTS && project !in p.keys
    ensures key in p.With(project, [Entry(visit.url, visit.at, None)]).Evicted().lists <==>
      if visit.at <= NewestIn(p.Of(LastRanked(p))) then key in p.lists else key == project || (key in p.lists && key != LastRanked(p))
  {
    var newest, entries := p.Newest(), [Entry(visit.url, visit.at, None)];
    var more := p.With(project, entries);
    WithKeeps(p, project, entries);
    NewestWith(p, project, entries);
    OneTooMany(newest, visit.at);
    RankedInOrder(newest);
    LastRankedIsThere(p);
    var kept := Ranked(newest + [visit.at])[..MAX_PROJECTS];
    KeptLists(more, kept);
    if visit.at <= NewestIn(p.Of(LastRanked(p))) {
      KeptAll(p, project, more, kept, key);
    } else {
      KeptButLast(p, project, more, kept, key);
    }
  }

  lemma NewestWith(p: Projects, project: string, entries: seq<Entry>)
    requires p.Valid() && project !in p.keys
    ensures p.With(project, entries).Newest() == p.Newest() + [NewestIn(entries)]
  {
    var more := p.With(project, entries);
    assert project !in p.lists;
    forall i | 0 <= i < |p.keys|
      ensures more.Newest()[i] == p.Newest()[i]
    {
      assert more.keys[i] == p.keys[i] && p.keys[i] in p.keys;
    }
  }

  lemma KeptLists(p: Projects, kept: seq<nat>)
    requires p.Valid() && |p.keys| > MAX_PROJECTS && kept == Ranked(p.Newest())[..MAX_PROJECTS]
    ensures forall key :: key in p.Evicted().lists <==> exists i <- kept :: i < |p.keys| && p.keys[i] == key
    ensures forall key <- p.Evicted().lists :: key in p.lists && p.Evicted().lists[key] == p.lists[key]
  {
    EvictionBounds(p);
    var keys := p.Evicted().keys;
    forall key
      ensures key in keys <==> exists i <- kept :: i < |p.keys| && p.keys[i] == key
    {
      if key in keys {
        var r :| 0 <= r < |keys| && keys[r] == key;
        assert kept[r] in kept && p.keys[kept[r]] == key;
      }
      if i :| i in kept && i < |p.keys| && p.keys[i] == key {
        var r :| 0 <= r < |kept| && kept[r] == i;
        assert keys[r] == key;
      }
    }
  }

  lemma KeptAll(p: Projects, project: string, more: Projects, kept: seq<nat>, key: string)
    requires p.Valid() && more.keys == p.keys + [project]
    requires forall i: nat :: i in kept <==> i < |p.keys|
    ensures (exists i <- kept :: i < |more.keys| && more.keys[i] == key) <==> key in p.keys
  {
    if key in p.keys {
      var i :| 0 <= i < |p.keys| && p.keys[i] == key;
      assert i in kept && more.keys[i] == key;
    }
  }

  lemma KeptButLast(p: Projects, project: string, more: Projects, kept: seq<nat>, key: string)
    requires p.Valid() && p.keys != [] && project !in p.keys && more.keys == p.keys + [project]
    requires forall i: nat :: i in kept <==> i == |p.keys| || (i < |p.keys| && i != Ranked(p.Newest())[|p.keys| - 1])
    ensures (exists i <- kept :: i < |more.keys| && more.keys[i] == key) <==> key == project || (key in p.keys && key != LastRanked(p))
  {
    var last := Ranked(p.Newest())[|p.keys| - 1];
    if key == project {
      assert |p.keys| in kept && more.keys[|p.keys|] == key;
    } else if key in p.keys && key != LastRanked(p) {
      var i :| 0 <= i < |p.keys| && p.keys[i] == key;
      assert i in kept && more.keys[i] == key;
    } else if key in p.keys {
      assert forall i :: 0 <= i < |p.keys| && i != last ==> p.keys[i] != p.keys[last];
    }
  }

  // ----- The store -----

  class HistoryStore {
    const addresses: Addresses
    var projects: Projects
    var projectOf: map<string, string>
    var pending: Pending

    constructor (addresses: Addresses)
      ensures this.addresses == addresses && projects == Projects([], map[]) && projectOf == map[] && pending == Pending(map[], [])
    {
      this.addresses := addresses;
      projects, projectOf, pending := Projects([], map[]), map[], Pending(map[], []);
    }

    /** `recordVisit`: the project's history with the visit, and then at most 20 projects. */
    method RecordVisit(project: string, visit: Visit, ordered: bool)
      modifies this`projects
      ensures projects == Recorded(old(projects), project, visit, ordered, addresses)
      ensures old(projects.Bounded()) ==> projects.Bounded()
    {
      ghost var before := projects;
      projects := projects.With(project, Upsert(projects.Of(project), visit, ordered, addresses)).Evicted();
      if before.Bounded() {
        RecordedIsBounded(before, project, visit, ordered, addresses);
      }
    }

    /** `recordVisitForThread`: recorded at once if the thread's project is known, kept for later if not. */
    method RecordVisitForThread(thread: string, visit: Visit)
      requires pending.Valid()
      modifies this
      ensures pending.Valid() && projectOf == old(projectOf)
      ensures pending == if thread in projectOf then old(pending) else old(pending).Add(thread, visit)
      ensures projects == if thread in projectOf then Recorded(old(projects), projectOf[thread], visit, false, addresses) else old(projects)
      ensures old(projects.Bounded()) ==> projects.Bounded()
    {
      if thread in projectOf {
        RecordVisit(projectOf[thread], visit, false);
      } else {
        AddKeepsBounds(pending, thread, visit);
        pending := pending.Add(thread, visit);
      }
    }

    /** `registerThreadProject`: the visits kept for the thread are inserted by their time. */
    method RegisterThreadProject(thread: string, project: string)
      requires pending.Valid()
      modifies this
      ensures pending.Valid() && projectOf == old(projectOf)[thread := project] && pending == old(pending).Remove(thread)
      ensures projects == RecordedAll(old(projects), project, old(pending).Of(thread), addresses)
      ensures old(projects.Bounded() && HasRoom(projects, project) && pending.Of(thread) != []) ==>
        projects.lists == old(projects).lists[project := UpsertAll(old(projects).Of(project), old(pending).Of(thread), true, addresses)]
      ensures old(projects.Bounded()) ==> projects.Bounded()
    {
      var visits := pending.Of(thread);
      RemoveKeepsBounds(pending, thread);
      projectOf, pending := projectOf[thread := project], pending.Remove(thread);
      ghost var before := projects;
      FlushVisits(project, visits);
      if before.Bounded() && HasRoom(before, project) {
        FlushWithRoom(before, project, visits, addresses);
      }
    }

    method FlushVisits(project: string, visits: seq<Visit>)
      modifies this`projects
      ensures projects == RecordedAll(old(projects), project, visits, addresses)
      ensures old(projects.Bounded()) ==> projects.Bounded()
    {
      for i := 0 to |visits|
        invariant projects == RecordedAll(old(projects), project, visits[..i], addresses)
        invariant old(projects.Bounded()) ==> projects.Bounded()
      {
        assert visits[..i + 1][..i] == visits[..i];
        RecordVisit(project, visits[i], true);
      }
      assert visits[..|visits|] == visits;
    }
  }
}
