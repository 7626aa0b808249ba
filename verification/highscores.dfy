/**
 The list logic of `save_high_score` (main.py): append the new entry, sort
 by score from high to low with Python's stable sort, keep the first five.
 Reading and writing the JSON file are left to the caller.
 */
module HighScores {

  datatype Entry = Entry(name: string, score: int)

  const MaxEntries := 5

  predicate SortedDesc(s: seq<Entry>) {
    forall i, j :: 0 <= i < j < |s| ==> s[i].score >= s[j].score
  }

  /** Insert `e` in front of the first entry it ties or beats. */
  function InsertDesc(e: Entry, s: seq<Entry>): (r: seq<Entry>)
    ensures multiset(r) == multiset{e} + multiset(s)
    ensures |r| == |s| + 1
    ensures r[0] == e || (|s| > 0 && r[0] == s[0])
  {
    if |s| == 0 || e.score >= s[0].score then [e] + s
    else
      assert s == [s[0]] + s[1..];
      [s[0]] + InsertDesc(e, s[1..])
  }

  /** Inserting into a ranked list keeps it ranked. */
  lemma {:induction false} InsertDescSorted(e: Entry, s: seq<Entry>)
    requires SortedDesc(s)
    ensures SortedDesc(InsertDesc(e, s))
  {
    if |s| > 0 && e.score < s[0].score {
      var rest := InsertDesc(e, s[1..]);
      InsertDescSorted(e, s[1..]);
      assert rest[0].score <= s[0].score by {
        if |s| > 1 {
          assert s[1..][0] == s[1];
        }
      }
      var r := [s[0]] + rest;
      assert InsertDesc(e, s) == r;
      forall i, j | 0 <= i < j < |r|
        ensures r[i].score >= r[j].score
      {
        assert r[j] == rest[j - 1];
        if i > 0 {
          assert r[i] == rest[i - 1];
        } else {
          assert rest[0].score >= rest[j - 1].score;
        }
      }
    }
  }

  /** A stable sort from high to low scores: insertion from the back keeps
      equal scores in their original order, as `sort(reverse=True)` does. */
  function SortDesc(s: seq<Entry>): (r: seq<Entry>)
    ensures multiset(r) == multiset(s)
    ensures SortedDesc(r)
  {
    if |s| == 0 then []
    else
      assert s == [s[0]] + s[1..];
      var rest := SortDesc(s[1..]);
      assert SortedDesc(InsertDesc(s[0], rest)) by {
        InsertDescSorted(s[0], rest);
      }
      InsertDesc(s[0], rest)
  }

  /** `high_scores[:5]`: at most the first five entries. */
  function Top(s: seq<Entry>): (r: seq<Entry>)
    ensures r <= s && |r| <= MaxEntries
    ensures |s| <= MaxEntries ==> r == s
    ensures |s| > MaxEntries ==> |r| == MaxEntries
  {
    s[..if |s| < MaxEntries then |s| else MaxEntries]
  }

  /** `save_high_score`'s merge: the five best of the stored list plus the new
      entry, best first. */
  function SaveHighScore(scores: seq<Entry>, name: string, score: int): (r: seq<Entry>)
    ensures |r| == if |scores| + 1 < MaxEntries then |scores| + 1 else MaxEntries
    ensures SortedDesc(r)
    ensures multiset(r) <= multiset(scores + [Entry(name, score)])
    ensures forall e :: e in multiset(scores + [Entry(name, score)]) - multiset(r) ==>
              e.score <= r[|r| - 1].score
  {
    RankedTop(scores + [Entry(name, score)]);
    Top(SortDesc(scores + [Entry(name, score)]))
  }

  /** The five best of any non-empty list, best first. */
  lemma RankedTop(s: seq<Entry>)
    requires 0 < |s|
    ensures var r := Top(SortDesc(s));
            && |r| == (if |s| < MaxEntries then |s| else MaxEntries)
            && SortedDesc(r)
            && multiset(r) <= multiset(s)
            && forall e :: e in multiset(s) - multiset(r) ==> e.score <= r[|r| - 1].score
  {
    var all := SortDesc(s);
    assert |all| == |s| by {
      assert |multiset(all)| == |multiset(s)|;
    }
    TopOfRanked(all);
  }

  /** Cutting a ranked list to five: the kept prefix is ranked and a
      sub-multiset, and every dropped entry scores no higher than the last
      kept one. */
  lemma TopOfRanked(s: seq<Entry>)
    requires SortedDesc(s) && 0 < |s|
    ensures |Top(s)| == if |s| < MaxEntries then |s| else MaxEntries
    ensures SortedDesc(Top(s))
    ensures multiset(Top(s)) <= multiset(s)
    ensures forall e :: e in multiset(s) - multiset(Top(s)) ==> e.score <= Top(s)[|Top(s)| - 1].score
  {
    var n := if |s| < MaxEntries then |s| else MaxEntries;
    assert Top(s) == s[..n];
    assert s == s[..n] + s[n..];
    assert multiset(s) == multiset(s[..n]) + multiset(s[n..]);
    forall e | e in multiset(s) - multiset(s[..n])
      ensures e.score <= s[n - 1].score
    {
      assert e in multiset(s[n..]);
      assert e in s[n..];
    }
  }

  /** Where the new entry lands in an already ranked list: after every
      entry that ties or beats it. */
  function InsertAfterTies(s: seq<Entry>, e: Entry): seq<Entry> {
    if |s| == 0 || e.score > s[0].score then [e] + s
    else [s[0]] + InsertAfterTies(s[1..], e)
  }

  /** On a list that is already ranked (every list `SaveHighScore` ever
      returns), the stable sort places the new entry after all entries that
      tie or beat it: ranked entries win ties. */
  lemma {:induction false} SortRankedPlusOne(ranked: seq<Entry>, e: Entry)
    requires SortedDesc(ranked)
    ensures SortDesc(ranked + [e]) == InsertAfterTies(ranked, e)
  {
    if |ranked| == 0 {
      assert ranked + [e] == [e];
      assert SortDesc([e]) == InsertDesc(e, SortDesc([]));
    } else {
      var head, tail := ranked[0], ranked[1..];
      var t := InsertAfterTies(tail, e);
      assert SortDesc(ranked + [e]) == InsertDesc(head, t) by {
        assert (ranked + [e])[1..] == tail + [e];
        assert (ranked + [e])[0] == head;
        SortRankedPlusOne(tail, e);
      }
      assert |tail| > 0 ==> tail[0].score <= head.score;
      if e.score > head.score {
        assert t == [e] + tail;
        assert InsertDesc(head, tail) == [head] + tail;
        assert InsertDesc(head, t) == [e] + ([head] + tail);
        assert ranked == [head] + tail;
      } else {
        assert InsertDesc(head, t) == [head] + t;
      }
    }
  }

  /** Saving into a ranked list inserts the newcomer after its ties and
      cuts the result to five entries. */
  lemma SaveIntoRanked(ranked: seq<Entry>, name: string, score: int)
    requires SortedDesc(ranked)
    ensures SaveHighScore(ranked, name, score) == Top(InsertAfterTies(ranked, Entry(name, score)))
  {
    SortRankedPlusOne(ranked, Entry(name, score));
  }
}
