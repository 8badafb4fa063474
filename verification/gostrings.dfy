/** Go's `strings.Split` and `strings.Join` for a one-character separator.
    The program splits the token override on ",", an ASCII character, so
    splitting the UTF-8 bytes and splitting the characters agree. */
module GoStrings {

  /** Number of occurrences of `c` in `s` (Go's `strings.Count`). */
  function CountChar(s: string, c: char): (n: nat)
    ensures n <= |s|
    ensures n == 0 <==> c !in s
  {
    if s == [] then 0
    else (if s[0] == c then 1 else 0) + CountChar(s[1..], c)
  }

  /** Index of the first `c` in `s`, or -1 when there is none (Go's
      `strings.Index`). */
  function IndexChar(s: string, c: char): (i: int)
    ensures i == -1 <==> c !in s
    ensures i != -1 ==> 0 <= i < |s| && s[i] == c && c !in s[..i]
  {
    if s == [] then -1
    else if s[0] == c then 0
    else
      var j := IndexChar(s[1..], c);
      if j == -1 then -1
      else
        assert s[..j + 1] == [s[0]] + s[1..][..j];
        j + 1
  }

  lemma {:induction false} CountCharAppend(a: string, b: string, c: char)
    ensures CountChar(a + b, c) == CountChar(a, c) + CountChar(b, c)
    decreases |a|
  {
    if a == [] {
      assert a + b == b;
    } else {
      assert (a + b)[1..] == a[1..] + b;
      CountCharAppend(a[1..], b, c);
    }
  }

  /** `strings.Split(s, string(sep))`: the pieces of `s` between the
      occurrences of `sep`. The empty string splits into one empty piece. */
  function Split(s: string, sep: char): (pieces: seq<string>)
    ensures |pieces| == CountChar(s, sep) + 1
    ensures |pieces| == 1 <==> sep !in s
    ensures forall i :: 0 <= i < |pieces| ==> sep !in pieces[i]
    decreases |s|
  {
    var m := IndexChar(s, sep);
    if m == -1 then [s]
    else
      CountAtFirst(s, sep);
      [s[..m]] + Split(s[m + 1..], sep)
  }

  /** The first separator accounts for one occurrence; the rest follow it. */
  lemma CountAtFirst(s: string, sep: char)
    requires sep in s
    ensures CountChar(s, sep) == 1 + CountChar(s[IndexChar(s, sep) + 1..], sep)
  {
    var m := IndexChar(s, sep);
    assert s == s[..m] + ([sep] + s[m + 1..]);
    CountCharAppend(s[..m], [sep] + s[m + 1..], sep);
    CountCharAppend([sep], s[m + 1..], sep);
  }

  /** `strings.Join(pieces, string(sep))`. */
  function Join(pieces: seq<string>, sep: char): string
  {
    if |pieces| == 0 then ""
    else if |pieces| == 1 then pieces[0]
    else pieces[0] + [sep] + Join(pieces[1..], sep)
  }

  /** Joining the pieces of a split gives back the original string. */
  lemma {:induction false} JoinSplit(s: string, sep: char)
    ensures Join(Split(s, sep), sep) == s
    decreases |s|
  {
    var m := IndexChar(s, sep);
    if m != -1 {
      var rest := s[m + 1..];
      SplitAtFirst(s, sep);
      JoinSplit(rest, sep);
      JoinCons(s[..m], Split(rest, sep), sep);
    }
  }

  /** One step of `Split`: the piece before the first separator, then the
      split of what follows it. */
  lemma SplitAtFirst(s: string, sep: char)
    requires sep in s
    ensures var m := IndexChar(s, sep);
      && Split(s, sep) == [s[..m]] + Split(s[m + 1..], sep)
      && s == s[..m] + [sep] + s[m + 1..]
  {
    var m := IndexChar(s, sep);
    assert s == s[..m] + [s[m]] + s[m + 1..];
  }

  /** Splitting a join of separator-free pieces recovers the pieces, so the
      split of a string is the unique such decomposition. */
  lemma {:induction false} SplitJoin(pieces: seq<string>, sep: char)
    requires |pieces| >= 1
    requires forall i :: 0 <= i < |pieces| ==> sep !in pieces[i]
    ensures Split(Join(pieces, sep), sep) == pieces
    decreases |pieces|
  {
    if |pieces| > 1 {
      var s := Join(pieces, sep);
      var head := pieces[0];
      var rest := Join(pieces[1..], sep);
      JoinCons(head, pieces[1..], sep);
      assert [head] + pieces[1..] == pieces;
      assert s == head + ([sep] + rest);
      assert IndexChar(s, sep) == |head| by {
        assert s[..|head|] == head;
        assert s[|head|] == sep;
        IndexIsFirst(s, sep, |head|);
      }
      assert s[|head| + 1..] == rest;
      SplitJoin(pieces[1..], sep);
      assert [head] + pieces[1..] == pieces;
    }
  }

  /** The first occurrence of `c` is where `IndexChar` points. */
  lemma IndexIsFirst(s: string, c: char, i: nat)
    requires i < |s| && s[i] == c && c !in s[..i]
    ensures IndexChar(s, c) == i
  {
  }

  /** Joining a non-empty tail behind one more piece puts one separator
      between them. */
  lemma JoinCons(head: string, tail: seq<string>, sep: char)
    requires |tail| >= 1
    ensures Join([head] + tail, sep) == head + [sep] + Join(tail, sep)
  {
    assert ([head] + tail)[0] == head;
    assert ([head] + tail)[1..] == tail;
  }
}
