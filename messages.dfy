/**
 * Collected messages and their canonical order.
 *
 * A `MessageData` record is a dataclass declared with `order=True`, so two
 * records compare as the tuples (timestamp, id, author, content, attachments):
 * the first field that differs decides, strings compare code point by code
 * point, and a list of strings compares element by element. Timestamps are
 * integers (microseconds since the epoch), which is exactly the precision of
 * Python's `datetime`.
 */
module Messages {

  datatype Message = Message(
    timestamp: int,
    id: int,
    author: int,
    content: string,
    attachments: seq<string>)

  /** Python's `<` on `str`: lexicographic by code point, a proper prefix is smaller. */
  predicate TextLess(a: string, b: string)
  {
    if |a| == 0 then |b| > 0
    else if |b| == 0 then false
    else if a[0] != b[0] then a[0] < b[0]
    else TextLess(a[1..], b[1..])
  }

  /** Python's `<` on `list[str]`: the first differing element decides, else the shorter list. */
  predicate TextsLess(a: seq<string>, b: seq<string>)
  {
    if |a| == 0 then |b| > 0
    else if |b| == 0 then false
    else if a[0] != b[0] then TextLess(a[0], b[0])
    else TextsLess(a[1..], b[1..])
  }

  /** The `<` that `order=True` generates for `MessageData`. */
  predicate Less(x: Message, y: Message)
  {
    if x.timestamp != y.timestamp then x.timestamp < y.timestamp
    else if x.id != y.id then x.id < y.id
    else if x.author != y.author then x.author < y.author
    else if x.content != y.content then TextLess(x.content, y.content)
    else TextsLess(x.attachments, y.attachments)
  }

  predicate LessEq(x: Message, y: Message)
  {
    Less(x, y) || x == y
  }

  lemma {:induction false} TextLessIrreflexive(a: string)
    ensures !TextLess(a, a)
  {
    if |a| > 0 {
      TextLessIrreflexive(a[1..]);
    }
  }

  lemma {:induction false} TextLessTransitive(a: string, b: string, c: string)
    requires TextLess(a, b) && TextLess(b, c)
    ensures TextLess(a, c)
  {
    if |a| > 0 && |b| > 0 && |c| > 0 && a[0] == b[0] && b[0] == c[0] {
      TextLessTransitive(a[1..], b[1..], c[1..]);
    }
  }

  lemma {:induction false} TextLessTotal(a: string, b: string)
    requires a != b
    ensures TextLess(a, b) != TextLess(b, a)
  {
    if |a| > 0 && |b| > 0 && a[0] == b[0] {
      assert a == [a[0]] + a[1..] && b == [b[0]] + b[1..];
      TextLessTotal(a[1..], b[1..]);
    }
  }

  lemma {:induction false} TextsLessIrreflexive(a: seq<string>)
    ensures !TextsLess(a, a)
  {
    if |a| > 0 {
      TextsLessIrreflexive(a[1..]);
    }
  }

  lemma {:induction false} TextsLessTransitive(a: seq<string>, b: seq<string>, c: seq<string>)
    requires TextsLess(a, b) && TextsLess(b, c)
    ensures TextsLess(a, c)
  {
    if |a| > 0 && |b| > 0 && |c| > 0 {
      if a[0] == b[0] && b[0] == c[0] {
        TextsLessTransitive(a[1..], b[1..], c[1..]);
      } else if a[0] != b[0] && b[0] != c[0] {
        TextLessTransitive(a[0], b[0], c[0]);
        if a[0] == c[0] {
          TextLessTotal(a[0], b[0]);
        }
      }
    }
  }

  lemma {:induction false} TextsLessTotal(a: seq<string>, b: seq<string>)
    requires a != b
    ensures TextsLess(a, b) != TextsLess(b, a)
  {
    if |a| > 0 && |b| > 0 {
      if a[0] == b[0] {
        assert a == [a[0]] + a[1..] && b == [b[0]] + b[1..];
        TextsLessTotal(a[1..], b[1..]);
      } else {
        TextLessTotal(a[0], b[0]);
      }
    }
  }

  /** `<` on messages is a strict order ... */
  lemma LessIrreflexive(x: Message)
    ensures !Less(x, x)
  {
    TextsLessIrreflexive(x.attachments);
  }

  lemma LessTransitive(x: Message, y: Message, z: Message)
    requires Less(x, y) && Less(y, z)
    ensures Less(x, z)
  {
    if x.timestamp == y.timestamp == z.timestamp && x.id == y.id == z.id && x.author == y.author == z.author {
      if x.content != y.content && y.content != z.content {
        TextLessTransitive(x.content, y.content, z.content);
        if x.content == z.content {
          TextLessTotal(x.content, y.content);
        }
      } else if x.content == y.content == z.content {
        TextsLessTransitive(x.attachments, y.attachments, z.attachments);
      }
    }
  }

  /** ... and total: of two different messages exactly one is the smaller. */
  lemma LessTotal(x: Message, y: Message)
    requires x != y
    ensures Less(x, y) != Less(y, x)
  {
    if x.timestamp == y.timestamp && x.id == y.id && x.author == y.author {
      if x.content != y.content {
        TextLessTotal(x.content, y.content);
      } else {
        TextsLessTotal(x.attachments, y.attachments);
      }
    }
  }

  lemma LessEqTransitive(x: Message, y: Message, z: Message)
    requires LessEq(x, y) && LessEq(y, z)
    ensures LessEq(x, z)
  {
    if x != y && y != z {
      LessTransitive(x, y, z);
    }
  }

  lemma LessEqAntisymmetric(x: Message, y: Message)
    requires LessEq(x, y) && LessEq(y, x)
    ensures x == y
  {
    if x != y {
      LessTotal(x, y);
    }
  }

  ghost predicate Sorted(s: seq<Message>)
  {
    forall i, j :: 0 <= i < j < |s| ==> LessEq(s[i], s[j])
  }

  /** A sorted sequence stays sorted under a new head that is at most every element of it. */
  lemma PrependSorted(y: Message, t: seq<Message>)
    requires Sorted(t)
    requires forall m | m in multiset(t) :: LessEq(y, m)
    ensures Sorted([y] + t)
  {
    forall i, j | 0 <= i < j < |t| + 1 ensures LessEq(([y] + t)[i], ([y] + t)[j]) {
      if i == 0 {
        assert t[j - 1] in multiset(t);
      } else {
        assert ([y] + t)[i] == t[i - 1] && ([y] + t)[j] == t[j - 1];
      }
    }
  }

  /** An element at most the head of a sorted sequence is at most all of it. */
  lemma BelowHead(x: Message, s: seq<Message>)
    requires Sorted(s) && |s| > 0 && LessEq(x, s[0])
    ensures forall m | m in multiset(s) :: LessEq(x, m)
  {
    forall m | m in multiset(s) ensures LessEq(x, m) {
      HeadIsLeast(s, m);
      LessEqTransitive(x, s[0], m);
    }
  }

  /** Inserting a larger element behind the head of a sorted sequence keeps the head least. */
  lemma HeadBelowInsert(x: Message, s: seq<Message>, t: seq<Message>)
    requires Sorted(s) && |s| > 0 && !LessEq(x, s[0])
    requires multiset(t) == multiset(s[1..]) + multiset{x}
    ensures forall m | m in multiset(t) :: LessEq(s[0], m)
  {
    forall m | m in multiset(t) ensures LessEq(s[0], m) {
      if m == x {
        LessTotal(x, s[0]);
      } else {
        assert m in s[1..];
        var j :| 0 <= j < |s[1..]| && s[1..][j] == m;
        assert s[j + 1] == m;
      }
    }
  }

  /** Insert `x` into the sorted sequence `s` before its first larger element. */
  function Insert(x: Message, s: seq<Message>): (r: seq<Message>)
    requires Sorted(s)
    ensures Sorted(r)
    ensures multiset(r) == multiset(s) + multiset{x}
    ensures |r| == |s| + 1
  {
    if |s| == 0 then [x]
    else if LessEq(x, s[0]) then
      BelowHead(x, s);
      PrependSorted(x, s);
      [x] + s
    else
      TailSorted(s);
      var t := Insert(x, s[1..]);
      HeadBelowInsert(x, s, t);
      PrependSorted(s[0], t);
      assert s == [s[0]] + s[1..];
      [s[0]] + t
  }

  /** `sorted(messages)` and `messages.sort()`. */
  function Sort(s: seq<Message>): (r: seq<Message>)
    ensures Sorted(r)
    ensures multiset(r) == multiset(s)
    ensures |r| == |s|
  {
    if |s| == 0 then []
    else
      assert s == s[..|s| - 1] + [s[|s| - 1]];
      Insert(s[|s| - 1], Sort(s[..|s| - 1]))
  }

  /** The head of a sorted sequence is at most every element of it. */
  lemma HeadIsLeast(s: seq<Message>, m: Message)
    requires Sorted(s) && m in s
    ensures LessEq(s[0], m)
  {
    var i :| 0 <= i < |s| && s[i] == m;
    if i > 0 {
      assert LessEq(s[0], s[i]);
    }
  }

  lemma TailSorted(s: seq<Message>)
    requires Sorted(s) && |s| > 0
    ensures Sorted(s[1..])
  {
    forall i, j | 0 <= i < j < |s| - 1 ensures LessEq(s[1..][i], s[1..][j]) {
      assert s[1..][i] == s[i + 1] && s[1..][j] == s[j + 1];
    }
  }

  /** Two sorted permutations of each other start with the same element, and their tails are permutations too. */
  lemma SortedHeadsAgree(a: seq<Message>, b: seq<Message>)
    requires Sorted(a) && Sorted(b) && |a| > 0
    requires multiset(a) == multiset(b)
    ensures |b| > 0 && a[0] == b[0]
    ensures multiset(a[1..]) == multiset(b[1..])
  {
    assert a[0] in multiset(b);
    assert |b| > 0;
    assert b[0] in multiset(a);
    HeadIsLeast(b, a[0]);
    HeadIsLeast(a, b[0]);
    LessEqAntisymmetric(a[0], b[0]);
    assert a == [a[0]] + a[1..] && b == [b[0]] + b[1..];
    assert multiset(a[1..]) == multiset(a) - multiset{a[0]};
    assert multiset(b[1..]) == multiset(b) - multiset{b[0]};
  }

  /**
   * The sorted permutation of a sequence is unique, because `Less` is a strict
   * total order on whole records. So `Sort` is what Python's (stable) sort
   * returns, whatever algorithm the interpreter uses.
   */
  lemma {:induction false} SortedPermutationUnique(a: seq<Message>, b: seq<Message>)
    requires Sorted(a) && Sorted(b)
    requires multiset(a) == multiset(b)
    ensures a == b
    decreases |a|
  {
    if |a| == 0 {
      assert |multiset(b)| == 0;
    } else {
      SortedHeadsAgree(a, b);
      TailSorted(a);
      TailSorted(b);
      SortedPermutationUnique(a[1..], b[1..]);
      assert a == [a[0]] + a[1..] && b == [b[0]] + b[1..];
    }
  }

  /** Sorting an already sorted sequence changes nothing. */
  lemma SortSorted(s: seq<Message>)
    requires Sorted(s)
    ensures Sort(s) == s
  {
    SortedPermutationUnique(Sort(s), s);
  }

  /** Sorting orders timestamps: the primary key never decreases along a sorted sequence. */
  lemma SortedTimestamps(s: seq<Message>, i: int, j: int)
    requires Sorted(s) && 0 <= i <= j < |s|
    ensures s[i].timestamp <= s[j].timestamp
  {
    if i < j {
      assert LessEq(s[i], s[j]);
    }
  }

  /** Timestamps never decrease along `s`. */
  ghost predicate TimesSorted(s: seq<Message>)
  {
    forall i, j :: 0 <= i <= j < |s| ==> s[i].timestamp <= s[j].timestamp
  }

  lemma SortedTimes(s: seq<Message>)
    requires Sorted(s)
    ensures TimesSorted(s)
  {
    forall i, j | 0 <= i <= j < |s| ensures s[i].timestamp <= s[j].timestamp {
      SortedTimestamps(s, i, j);
    }
  }

  /** A contiguous slice of a sorted sequence is sorted. */
  lemma SliceSorted(s: seq<Message>, lo: int, hi: int)
    requires Sorted(s) && 0 <= lo <= hi <= |s|
    ensures Sorted(s[lo..hi])
  {
    forall i, j | 0 <= i < j < hi - lo ensures LessEq(s[lo..hi][i], s[lo..hi][j]) {
      assert s[lo..hi][i] == s[lo + i] && s[lo..hi][j] == s[lo + j];
    }
  }
}
