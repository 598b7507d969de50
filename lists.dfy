/** Sequence helpers that mirror the Ruby Array operations the collection
    model is written with: `uniq`, `&` (intersection) and `join`. */
module Lists {

  datatype Option<T> = None | Some(value: T)

  /** No element occurs twice. */
  predicate NoDup<T(==,!new)>(s: seq<T>) {
    forall i, j :: 0 <= i < j < |s| ==> s[i] != s[j]
  }

  /** Array#uniq: keeps the first occurrence of every element, in order. */
  function Uniq<T(==,!new)>(s: seq<T>): (r: seq<T>)
    ensures NoDup(r)
    ensures forall x :: x in r <==> x in s
    ensures |r| <= |s|
    decreases |s|
  {
    if s == [] then []
    else
      var init := s[..|s| - 1];
      var last := s[|s| - 1];
      assert s == init + [last];
      var u := Uniq(init);
      if last in u then u else u + [last]
  }

  /** Uniq removes nothing exactly when there is nothing to remove. */
  lemma {:induction false} UniqLength<T(!new)>(s: seq<T>)
    ensures |Uniq(s)| == |s| <==> NoDup(s)
    ensures NoDup(s) ==> Uniq(s) == s
    decreases |s|
  {
    if s != [] {
      var init := s[..|s| - 1];
      var last := s[|s| - 1];
      assert s == init + [last];
      UniqLength(init);
      if NoDup(s) {
        assert NoDup(init);
        assert last !in init by {
          forall i | 0 <= i < |init| ensures init[i] != last {
            assert s[i] != s[|s| - 1];
          }
        }
      }
      if |Uniq(s)| == |s| {
        assert last !in Uniq(init);
        assert |Uniq(init)| == |init|;
        assert NoDup(init);
        assert last !in init;
        forall i, j | 0 <= i < j < |s| ensures s[i] != s[j] {
          if j == |s| - 1 {
            assert s[i] == init[i];
          } else {
            assert s[i] == init[i] && s[j] == init[j];
          }
        }
      }
    }
  }

  /** Two duplicate-free halves with a common element make a sequence with a duplicate. */
  lemma SharedElementDuplicates<T(!new)>(a: seq<T>, b: seq<T>, x: T)
    requires x in a && x in b
    ensures !NoDup(a + b)
  {
    var i :| 0 <= i < |a| && a[i] == x;
    var j :| 0 <= j < |b| && b[j] == x;
    assert (a + b)[i] == (a + b)[|a| + j];
  }

  /** The elements of `a` that also occur in `b`, in the order of `a`. */
  function KeepIn<T(==,!new)>(a: seq<T>, b: seq<T>): (r: seq<T>)
    ensures forall x :: x in r <==> x in a && x in b
    decreases |a|
  {
    if a == [] then []
    else
      var init := a[..|a| - 1];
      var last := a[|a| - 1];
      assert a == init + [last];
      KeepIn(init, b) + (if last in b then [last] else [])
  }

  /** Array#&: the common elements, without duplicates, in the order of `a`. */
  function Intersect<T(==,!new)>(a: seq<T>, b: seq<T>): (r: seq<T>)
    ensures NoDup(r)
    ensures forall x :: x in r <==> x in a && x in b
  {
    Uniq(KeepIn(a, b))
  }

  /** Array#join(sep) on strings. */
  function Join(sep: string, parts: seq<string>): (r: string)
    ensures parts == [] ==> r == ""
    ensures |parts| == 1 ==> r == parts[0]
    decreases |parts|
  {
    if parts == [] then ""
    else if |parts| == 1 then parts[0]
    else Join(sep, parts[..|parts| - 1]) + sep + parts[|parts| - 1]
  }

  /** Joining two or more strings puts the first one, then the separator,
      then the join of the rest. */
  lemma {:induction false} JoinCons(sep: string, parts: seq<string>)
    requires |parts| >= 2
    ensures Join(sep, parts) == parts[0] + sep + Join(sep, parts[1..])
    decreases |parts|
  {
    if |parts| > 2 {
      var init := parts[..|parts| - 1];
      JoinCons(sep, init);
      assert init[1..] == parts[1..][..|parts[1..]| - 1];
      assert init[0] == parts[0];
    } else {
      assert parts[..1] == [parts[0]];
    }
  }

  /** The joined string is as long as the parts together, plus one separator
      between each neighbouring pair. */
  lemma {:induction false} JoinLength(sep: string, parts: seq<string>)
    requires parts != []
    ensures |Join(sep, parts)| == TotalLength(parts) + (|parts| - 1) * |sep|
    decreases |parts|
  {
    if |parts| > 1 {
      var init := parts[..|parts| - 1];
      JoinLength(sep, init);
      assert parts == init + [parts[|parts| - 1]];
      TotalLengthAppend(init, parts[|parts| - 1]);
    }
  }

  function TotalLength(parts: seq<string>): nat {
    if parts == [] then 0 else |parts[0]| + TotalLength(parts[1..])
  }

  lemma {:induction false} TotalLengthAppend(parts: seq<string>, last: string)
    ensures TotalLength(parts + [last]) == TotalLength(parts) + |last|
    decreases |parts|
  {
    if parts != [] {
      assert (parts + [last])[1..] == parts[1..] + [last];
      TotalLengthAppend(parts[1..], last);
    }
  }

  /** ASCII white space, the characters String#blank? skips. */
  predicate IsSpace(ch: char) {
    ch == ' ' || ch == '\t' || ch == '\n' || ch == '\r' || ch == '\U{000C}' || ch == '\U{000B}'
  }

  /** String#blank?: empty or white space only (nil is modelled as ""). */
  predicate Blank(s: string) {
    forall i :: 0 <= i < |s| ==> IsSpace(s[i])
  }
}
