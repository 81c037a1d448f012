/** The ascending timestamp order both the export and the trend chart use:
    `[...readings].sort((a, b) => time(a) - time(b))`.  `Array.prototype.sort`
    is stable, so readings with equal timestamps keep their input order. */
module TimeOrder {
  import opened Seqs
  import opened Readings

  predicate SortedByTime(s: seq<Reading>)
  {
    forall i, j :: 0 <= i < j < |s| ==> s[i].timestamp <= s[j].timestamp
  }

  /** The readings taken at instant `t`, in their order in `s`. */
  function AtTime(s: seq<Reading>, t: int): seq<Reading>
  {
    Filter(s, (r: Reading) => r.timestamp == t)
  }

  /** `b` holds, for every instant, the same readings in the same order as `a`. */
  ghost predicate SameOrderPerTime(a: seq<Reading>, b: seq<Reading>)
  {
    forall t :: AtTime(a, t) == AtTime(b, t)
  }

  lemma AtTimeCons(x: Reading, s: seq<Reading>, t: int)
    ensures AtTime([x] + s, t) == Own(x, t) + AtTime(s, t)
  {
    assert ([x] + s)[1..] == s;
  }

  /** Places `x` in front of the first reading that is not earlier than it. */
  function Insert(x: Reading, s: seq<Reading>): (r: seq<Reading>)
    ensures |r| == |s| + 1
    ensures multiset(r) == multiset(s) + multiset{x}
  {
    if |s| == 0 || x.timestamp <= s[0].timestamp then [x] + s
    else
      assert s == [s[0]] + s[1..];
      [s[0]] + Insert(x, s[1..])
  }

  lemma SortedHeadMin(s: seq<Reading>, x: Reading)
    requires SortedByTime(s) && x in s
    ensures s[0].timestamp <= x.timestamp
  {
    var i :| 0 <= i < |s| && s[i] == x;
  }

  lemma {:induction false} InsertSorted(x: Reading, s: seq<Reading>)
    requires SortedByTime(s)
    ensures SortedByTime(Insert(x, s))
  {
    if |s| > 0 && s[0].timestamp < x.timestamp {
      var rest := Insert(x, s[1..]);
      InsertSorted(x, s[1..]);
      forall j | 0 <= j < |rest|
        ensures s[0].timestamp <= rest[j].timestamp
      {
        assert rest[j] in multiset(s[1..]) + multiset{x};
        if rest[j] != x {
          assert rest[j] in s[1..];
          SortedHeadMin(s, rest[j]);
        }
      }
    }
  }

  /** The readings of `x` alone at instant `t`: `[x]` or nothing. */
  function Own(x: Reading, t: int): seq<Reading>
  {
    if x.timestamp == t then [x] else []
  }

  /** Readings taken at different instants never both belong to one instant. */
  lemma OwnSwap(a: Reading, b: Reading, t: int, rest: seq<Reading>)
    requires a.timestamp != b.timestamp
    ensures Own(a, t) + (Own(b, t) + rest) == Own(b, t) + (Own(a, t) + rest)
  {
  }

  /** Inserting `x` puts it before every reading of the same instant. */
  lemma {:induction false} InsertAtTime(x: Reading, s: seq<Reading>, t: int)
    ensures AtTime(Insert(x, s), t) == Own(x, t) + AtTime(s, t)
  {
    if |s| == 0 || x.timestamp <= s[0].timestamp {
      AtTimeCons(x, s, t);
    } else {
      var rest := Insert(x, s[1..]);
      assert Insert(x, s) == [s[0]] + rest;
      assert s == [s[0]] + s[1..];
      calc {
        AtTime(Insert(x, s), t);
        { AtTimeCons(s[0], rest, t); }
        Own(s[0], t) + AtTime(rest, t);
        { InsertAtTime(x, s[1..], t); }
        Own(s[0], t) + (Own(x, t) + AtTime(s[1..], t));
        { OwnSwap(s[0], x, t, AtTime(s[1..], t)); }
        Own(x, t) + (Own(s[0], t) + AtTime(s[1..], t));
        { AtTimeCons(s[0], s[1..], t); }
        Own(x, t) + AtTime(s, t);
      }
    }
  }

  /** The stable ascending sort by timestamp: the result is ordered, a
      permutation of the input, and keeps the input order among readings
      taken at the same instant. */
  function SortByTime(s: seq<Reading>): (r: seq<Reading>)
    ensures |r| == |s|
    ensures multiset(r) == multiset(s)
    ensures SortedByTime(r)
    ensures SameOrderPerTime(r, s)
  {
    if |s| == 0 then []
    else
      var sortedTail := SortByTime(s[1..]);
      var r := Insert(s[0], sortedTail);
      assert s == [s[0]] + s[1..];
      InsertSorted(s[0], sortedTail);
      assert SameOrderPerTime(r, s) by {
        forall t
          ensures AtTime(r, t) == AtTime(s, t)
        {
          InsertAtTime(s[0], sortedTail, t);
          assert AtTime(sortedTail, t) == AtTime(s[1..], t);
          AtTimeCons(s[0], s[1..], t);
        }
      }
      r
  }

  lemma AtTimeHead(s: seq<Reading>)
    requires |s| > 0
    ensures |AtTime(s, s[0].timestamp)| > 0 && AtTime(s, s[0].timestamp)[0] == s[0]
  {
    AtTimeCons(s[0], s[1..], s[0].timestamp);
    assert s == [s[0]] + s[1..];
  }

  lemma InAtTime(s: seq<Reading>, t: int, x: Reading)
    requires x in AtTime(s, t)
    ensures x in s && x.timestamp == t
  {
    var i :| 0 <= i < |AtTime(s, t)| && AtTime(s, t)[i] == x;
  }

  lemma HeadsAgree(a: seq<Reading>, b: seq<Reading>)
    requires |a| > 0 && |b| > 0
    requires SortedByTime(a) && SortedByTime(b)
    requires SameOrderPerTime(a, b)
    ensures a[0] == b[0]
  {
    var ta, tb := a[0].timestamp, b[0].timestamp;
    AtTimeHead(a);
    AtTimeHead(b);
    assert AtTime(a, ta) == AtTime(b, ta);
    assert AtTime(a, tb) == AtTime(b, tb);
    InAtTime(b, ta, a[0]);
    SortedHeadMin(b, a[0]);
    InAtTime(a, tb, b[0]);
    SortedHeadMin(a, b[0]);
  }

  lemma TailsAgree(a: seq<Reading>, b: seq<Reading>)
    requires |a| > 0 && |b| > 0 && a[0] == b[0]
    requires SameOrderPerTime(a, b)
    ensures SameOrderPerTime(a[1..], b[1..])
  {
    assert a == [a[0]] + a[1..];
    assert b == [b[0]] + b[1..];
    forall t
      ensures AtTime(a[1..], t) == AtTime(b[1..], t)
    {
      AtTimeCons(a[0], a[1..], t);
      AtTimeCons(b[0], b[1..], t);
      var own := Own(a[0], t);
      assert own + AtTime(a[1..], t) == own + AtTime(b[1..], t);
      assert (own + AtTime(a[1..], t))[|own|..] == AtTime(a[1..], t);
      assert (own + AtTime(b[1..], t))[|own|..] == AtTime(b[1..], t);
    }
  }

  /** There is only one stable ascending order: two time-sorted sequences that
      agree, instant by instant, on which readings come in which order are
      equal.  So any stable sort yields exactly `SortByTime`. */
  lemma {:induction false} StableSortUnique(a: seq<Reading>, b: seq<Reading>)
    requires SortedByTime(a) && SortedByTime(b)
    requires SameOrderPerTime(a, b)
    ensures a == b
    decreases |a| + |b|
  {
    if |a| == 0 && |b| == 0 {
    } else if |a| == 0 {
      AtTimeHead(b);
    } else if |b| == 0 {
      AtTimeHead(a);
    } else {
      HeadsAgree(a, b);
      TailsAgree(a, b);
      StableSortUnique(a[1..], b[1..]);
      assert a == [a[0]] + a[1..];
      assert b == [b[0]] + b[1..];
    }
  }

  /** An input already in ascending order comes out unchanged. */
  lemma SortSorted(s: seq<Reading>)
    requires SortedByTime(s)
    ensures SortByTime(s) == s
  {
    StableSortUnique(SortByTime(s), s);
  }
}
