/** Ordering chat messages by their time stamp. The application sorts with
    `Array.prototype.sort` (stable) using `new Date(timestamp).getTime()` as the key,
    and the store answers `order('created_at', { ascending: true })`; both are the
    stable insertion sort below. Date parsing is an input: `time` maps a time stamp
    string to milliseconds. */
module Timeline {
  import opened Types

  type TimeOf = string -> int

  predicate SortedByTime(s: seq<ChatMessage>, time: TimeOf) {
    forall i, j :: 0 <= i < j < |s| ==> time(s[i].timestamp) <= time(s[j].timestamp)
  }

  /** The ids present in a message list. */
  function Ids(s: seq<ChatMessage>): set<string> {
    set i | 0 <= i < |s| :: s[i].id
  }

  /** No two entries share an id. */
  predicate UniqueIds(s: seq<ChatMessage>) {
    forall i, j :: 0 <= i < j < |s| ==> s[i].id != s[j].id
  }

  /** Inserts `x` after every entry whose time is not later than its own. */
  function Insert(s: seq<ChatMessage>, x: ChatMessage, time: TimeOf): (r: seq<ChatMessage>)
    ensures multiset(r) == multiset(s) + multiset{x}
    ensures |r| == |s| + 1
  {
    if s == [] then [x]
    else if time(s[|s| - 1].timestamp) <= time(x.timestamp) then s + [x]
    else
      var last := s[|s| - 1];
      assert s == s[..|s| - 1] + [last];
      Insert(s[..|s| - 1], x, time) + [last]
  }

  /** The stable sort by time. */
  function SortByTime(s: seq<ChatMessage>, time: TimeOf): (r: seq<ChatMessage>)
    ensures multiset(r) == multiset(s)
    ensures |r| == |s|
  {
    if s == [] then []
    else
      assert s == s[..|s| - 1] + [s[|s| - 1]];
      Insert(SortByTime(s[..|s| - 1], time), s[|s| - 1], time)
  }

  lemma {:induction false} InsertSorted(s: seq<ChatMessage>, x: ChatMessage, time: TimeOf)
    requires SortedByTime(s, time)
    ensures SortedByTime(Insert(s, x, time), time)
  {
    if s != [] && time(s[|s| - 1].timestamp) > time(x.timestamp) {
      var init := s[..|s| - 1];
      InsertSorted(init, x, time);
      var r := Insert(init, x, time);
      var last := s[|s| - 1];
      forall k | 0 <= k < |r| ensures time(r[k].timestamp) <= time(last.timestamp) {
        assert r[k] in multiset(init) + multiset{x};
        if r[k] != x {
          var m :| 0 <= m < |init| && init[m] == r[k];
          assert s[m] == r[k];
        }
      }
    }
  }

  /** The sort orders by time. */
  lemma {:induction false} SortSorted(s: seq<ChatMessage>, time: TimeOf)
    ensures SortedByTime(SortByTime(s, time), time)
  {
    if s != [] {
      SortSorted(s[..|s| - 1], time);
      InsertSorted(SortByTime(s[..|s| - 1], time), s[|s| - 1], time);
    }
  }

  /** A list already in time order is left as it is. */
  lemma {:induction false} SortOfSorted(s: seq<ChatMessage>, time: TimeOf)
    requires SortedByTime(s, time)
    ensures SortByTime(s, time) == s
  {
    if s != [] {
      var init := s[..|s| - 1];
      assert SortedByTime(init, time);
      SortOfSorted(init, time);
      if |init| > 0 {
        assert time(init[|init| - 1].timestamp) <= time(s[|s| - 1].timestamp);
      }
      assert init + [s[|s| - 1]] == s;
    }
  }

  /** Sorting keeps exactly the same entries, hence the same ids. */
  lemma SortKeepsIds(s: seq<ChatMessage>, time: TimeOf)
    ensures Ids(SortByTime(s, time)) == Ids(s)
    ensures forall m :: m in SortByTime(s, time) <==> m in s
  {
    var r := SortByTime(s, time);
    assert forall m :: m in r <==> m in multiset(r);
    assert forall m :: m in s <==> m in multiset(s);
    forall id | id in Ids(r) ensures id in Ids(s) {
      var i :| 0 <= i < |r| && r[i].id == id;
      assert r[i] in s;
    }
    forall id | id in Ids(s) ensures id in Ids(r) {
      var i :| 0 <= i < |s| && s[i].id == id;
      assert s[i] in r;
    }
  }

  /** Inserting an entry with a new id keeps the ids unique and adds that id. */
  lemma {:induction false} InsertKeepsUniqueIds(s: seq<ChatMessage>, x: ChatMessage, time: TimeOf)
    requires UniqueIds(s) && x.id !in Ids(s)
    ensures UniqueIds(Insert(s, x, time))
    ensures Ids(Insert(s, x, time)) == Ids(s) + {x.id}
  {
    if s == [] {
    } else if time(s[|s| - 1].timestamp) <= time(x.timestamp) {
      IdsSnoc(s, x);
    } else {
      var init := s[..|s| - 1];
      var last := s[|s| - 1];
      IdsSnoc(init, last);
      assert s == init + [last];
      InsertKeepsUniqueIds(init, x, time);
      var r := Insert(init, x, time);
      IdsSnoc(r, last);
      assert last.id !in Ids(init);
    }
  }

  /** Appending one entry adds its id. */
  lemma IdsSnoc(s: seq<ChatMessage>, x: ChatMessage)
    ensures Ids(s + [x]) == Ids(s) + {x.id}
    ensures UniqueIds(s) && x.id !in Ids(s) ==> UniqueIds(s + [x])
  {
    var t := s + [x];
    forall id | id in Ids(t) ensures id in Ids(s) + {x.id} {
      var k :| 0 <= k < |t| && t[k].id == id;
      if k < |s| {
        assert s[k].id == id;
      }
    }
    forall id | id in Ids(s) ensures id in Ids(t) {
      var k :| 0 <= k < |s| && s[k].id == id;
      assert t[k].id == id;
    }
    assert t[|s|].id == x.id;
    if UniqueIds(s) && x.id !in Ids(s) {
      forall i, j | 0 <= i < j < |t| ensures t[i].id != t[j].id {
        if j == |s| {
          assert t[i] == s[i];
        }
      }
    }
  }

  /** Sorting never creates a duplicate id. */
  lemma {:induction false} SortKeepsUniqueIds(s: seq<ChatMessage>, time: TimeOf)
    requires UniqueIds(s)
    ensures UniqueIds(SortByTime(s, time))
  {
    if s != [] {
      var init := s[..|s| - 1];
      var last := s[|s| - 1];
      assert UniqueIds(init);
      SortKeepsUniqueIds(init, time);
      SortKeepsIds(init, time);
      IdsSnoc(init, last);
      assert s == init + [last];
      assert last.id !in Ids(init);
      InsertKeepsUniqueIds(SortByTime(init, time), last, time);
    }
  }
}
