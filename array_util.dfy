// `findOne(items, predicate)`: the single element satisfying a predicate,
// or an error when there is none or more than one. As written the error
// reports the number of items (`FindOne`); `FindOneReportingMatches` is
// the version whose message counts the matches, as its wording says.
module ArrayUtil {
  import opened Common

  /** `items.filter(predicate)`: the matching elements, in order. */
  function Filter<T>(items: seq<T>, matches: T -> bool): (r: seq<T>)
    ensures |r| <= |items|
    ensures forall x :: x in r ==> x in items && matches(x)
  {
    if |items| == 0 then []
    else (if matches(items[0]) then [items[0]] else []) + Filter(items[1..], matches)
  }

  /** The message of the error `findOne` throws; it reports `items.length`. */
  function FindOneMessage(itemCount: nat): string
  {
    "Expected 1 element matching predicate, got " + NatToString(itemCount)
  }

  /** Exactly one position of `items` satisfies `matches`, namely `i`. */
  predicate OnlyMatchAt<T>(items: seq<T>, matches: T -> bool, i: int)
  {
    0 <= i < |items| && matches(items[i]) &&
    forall j :: 0 <= j < |items| && j != i ==> !matches(items[j])
  }

  function FindOne<T>(items: seq<T>, matches: T -> bool): (r: Completion<T, string>)
    ensures r.Returned? <==> |Filter(items, matches)| == 1
    ensures r.Returned? ==> r.value in items && matches(r.value)
    ensures r.Threw? ==> r.error == FindOneMessage(|items|)
  {
    var filtered := Filter(items, matches);
    if |filtered| != 1 then Threw(FindOneMessage(|items|)) else Returned(filtered[0])
  }

  lemma {:induction false} FilterOfOnlyMatch<T>(items: seq<T>, matches: T -> bool, i: int)
    requires OnlyMatchAt(items, matches, i)
    ensures Filter(items, matches) == [items[i]]
  {
    if i == 0 {
      FilterOfNoMatch(items[1..], matches);
    } else {
      assert OnlyMatchAt(items[1..], matches, i - 1) by {
        forall j | 0 <= j < |items[1..]| && j != i - 1 ensures !matches(items[1..][j]) {
          assert items[1..][j] == items[j + 1];
        }
      }
      FilterOfOnlyMatch(items[1..], matches, i - 1);
    }
  }

  lemma {:induction false} FilterOfNoMatch<T>(items: seq<T>, matches: T -> bool)
    requires forall j :: 0 <= j < |items| ==> !matches(items[j])
    ensures Filter(items, matches) == []
  {
    if |items| > 0 {
      FilterOfNoMatch(items[1..], matches);
    }
  }

  lemma {:induction false} FilterOfTwoMatches<T>(items: seq<T>, matches: T -> bool, i: int, j: int)
    requires 0 <= i < j < |items| && matches(items[i]) && matches(items[j])
    ensures |Filter(items, matches)| >= 2
  {
    if i == 0 {
      FilterKeepsMatch(items[1..], matches, j - 1);
    } else {
      FilterOfTwoMatches(items[1..], matches, i - 1, j - 1);
    }
  }

  lemma {:induction false} FilterKeepsMatch<T>(items: seq<T>, matches: T -> bool, j: int)
    requires 0 <= j < |items| && matches(items[j])
    ensures |Filter(items, matches)| >= 1
  {
    if j > 0 {
      FilterKeepsMatch(items[1..], matches, j - 1);
    }
  }

  /** With exactly one match, `findOne` returns that element. */
  lemma FindOneReturnsOnlyMatch<T>(items: seq<T>, matches: T -> bool, i: int)
    requires OnlyMatchAt(items, matches, i)
    ensures FindOne(items, matches) == Returned(items[i])
  {
    FilterOfOnlyMatch(items, matches, i);
  }

  /** With no match, `findOne` throws. */
  lemma FindOneThrowsOnNoMatch<T>(items: seq<T>, matches: T -> bool)
    requires forall j :: 0 <= j < |items| ==> !matches(items[j])
    ensures FindOne(items, matches) == Threw(FindOneMessage(|items|))
  {
    FilterOfNoMatch(items, matches);
  }

  /** With two or more matches, `findOne` throws. */
  lemma FindOneThrowsOnTwoMatches<T>(items: seq<T>, matches: T -> bool, i: int, j: int)
    requires 0 <= i < j < |items| && matches(items[i]) && matches(items[j])
    ensures FindOne(items, matches) == Threw(FindOneMessage(|items|))
  {
    FilterOfTwoMatches(items, matches, i, j);
  }

  /** The message counts all items, not the matches: two lists with the same length and different match counts get the same message. */
  lemma FindOneMessageIgnoresMatches()
    ensures FindOne([1, 1, 2], (x: int) => x == 1) == FindOne([3, 4, 5], (x: int) => x == 1)
  {
    FindOneThrowsOnTwoMatches([1, 1, 2], (x: int) => x == 1, 0, 1);
    FindOneThrowsOnNoMatch([3, 4, 5], (x: int) => x == 1);
  }

  /** `findOne` with the message counting the matches, as its wording says. */
  function FindOneReportingMatches<T>(items: seq<T>, matches: T -> bool): (r: Completion<T, string>)
    ensures r.Returned? <==> |Filter(items, matches)| == 1
    ensures r.Returned? ==> r.value in items && matches(r.value) && FindOne(items, matches) == r
    ensures r.Threw? ==> r.error == FindOneMessage(|Filter(items, matches)|)
  {
    var filtered := Filter(items, matches);
    if |filtered| != 1 then Threw(FindOneMessage(|filtered|)) else Returned(filtered[0])
  }

  /** Reporting the matches tells the two lists of `FindOneMessageIgnoresMatches` apart. */
  lemma FindOneReportsMatchCount()
    ensures FindOneReportingMatches([1, 1, 2], (x: int) => x == 1) == Threw(FindOneMessage(2))
    ensures FindOneReportingMatches([3, 4, 5], (x: int) => x == 1) == Threw(FindOneMessage(0))
  {
    var one := (x: int) => x == 1;
    assert [1, 1, 2][1..] == [1, 2] && [1, 2][1..] == [2] && [2][1..] == [];
    assert Filter([1, 1, 2], one) == [1, 1];
    FilterOfNoMatch([3, 4, 5], one);
  }
}
