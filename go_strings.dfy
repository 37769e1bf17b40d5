/** Go's `strings.Split` for a one-character separator, the only form the
    command interpreter uses (`strings.Split(msg, "|")`), and its inverse
    `strings.Join`.  Go counts bytes and the interpreter only ever splits on
    the ASCII byte `|`, so splitting a sequence of characters gives the same
    fields. */
module GoStrings {

  /** Position of the first `c` in `s`. */
  function IndexOf(s: string, c: char): (i: nat)
    requires c in s
    ensures i < |s| && s[i] == c
    ensures c !in s[..i]
  {
    if s[0] == c then 0
    else
      var j := IndexOf(s[1..], c);
      assert s[..j + 1] == [s[0]] + s[1..][..j];
      j + 1
  }

  /** `strings.Split(s, sep)`: the pieces between separators, in order.  Like
      Go, an empty input gives one empty piece and adjacent separators give
      empty pieces. */
  function Split(s: string, sep: char): (parts: seq<string>)
    ensures |parts| >= 1
    decreases |s|
  {
    if sep !in s then [s]
    else
      var i := IndexOf(s, sep);
      [s[..i]] + Split(s[i + 1..], sep)
  }

  /** There is one piece more than there are separators. */
  lemma {:induction false} SplitCount(s: string, sep: char)
    ensures |Split(s, sep)| == multiset(s)[sep] + 1
    decreases |s|
  {
    if sep in s {
      var i := IndexOf(s, sep);
      SplitCount(s[i + 1..], sep);
      assert s == s[..i] + [sep] + s[i + 1..];
      assert multiset(s)[sep] == multiset(s[..i])[sep] + 1 + multiset(s[i + 1..])[sep];
    } else {
      assert multiset(s)[sep] == 0;
    }
  }

  /** No piece contains the separator. */
  lemma {:induction false} SplitPiecesClean(s: string, sep: char)
    ensures forall k :: 0 <= k < |Split(s, sep)| ==> sep !in Split(s, sep)[k]
    decreases |s|
  {
    if sep in s {
      var i := IndexOf(s, sep);
      SplitPiecesClean(s[i + 1..], sep);
    }
  }

  /** `strings.Join(parts, sep)`. */
  function Join(parts: seq<string>, sep: char): string
  {
    if |parts| == 0 then ""
    else if |parts| == 1 then parts[0]
    else parts[0] + [sep] + Join(parts[1..], sep)
  }

  /** Splitting after a separator-free head peels that head off as the first field. */
  lemma SplitAfterSep(head: string, sep: char, tail: string)
    requires sep !in head
    ensures Split(head + [sep] + tail, sep) == [head] + Split(tail, sep)
  {
    var s := head + [sep] + tail;
    assert s[|head|] == sep;
    assert s[..|head|] == head;
    var i := IndexOf(s, sep);
    assert i == |head|;
    assert s[..i] == head;
    assert s[i + 1..] == tail;
  }

  /** Two separator-free fields in front are the first two pieces. */
  lemma SplitTwoAfter(head: string, field: string, sep: char, tail: string)
    requires sep !in head && sep !in field
    ensures Split(head + [sep] + field + [sep] + tail, sep) == [head, field] + Split(tail, sep)
  {
    assert head + [sep] + field + [sep] + tail == head + [sep] + (field + [sep] + tail);
    SplitAfterSep(head, sep, field + [sep] + tail);
    SplitAfterSep(field, sep, tail);
  }

  /** The first field is the text up to the first separator, and the rest of
      the fields come from what follows that separator. */
  lemma SplitFirst(head: string, sep: char, rest: string)
    requires sep !in head
    requires rest == [] || rest[0] == sep
    ensures Split(head + rest, sep) == if rest == [] then [head] else [head] + Split(rest[1..], sep)
  {
    if rest == [] {
      assert head + rest == head;
    } else {
      assert head + rest == head + [sep] + rest[1..];
      SplitAfterSep(head, sep, rest[1..]);
    }
  }

  /** Joining the fields of a split gives back the original text. */
  lemma {:induction false} JoinSplit(s: string, sep: char)
    ensures Join(Split(s, sep), sep) == s
    decreases |s|
  {
    if sep in s {
      var i := IndexOf(s, sep);
      var rest := Split(s[i + 1..], sep);
      JoinSplit(s[i + 1..], sep);
      var parts := [s[..i]] + rest;
      assert Split(s, sep) == parts;
      assert parts[0] == s[..i] && parts[1..] == rest;
      assert Join(parts, sep) == s[..i] + [sep] + Join(rest, sep);
      assert s == s[..i] + [sep] + s[i + 1..];
    }
  }

  /** Splitting a join of separator-free fields gives back the fields. */
  lemma {:induction false} SplitJoin(parts: seq<string>, sep: char)
    requires |parts| > 0
    requires forall k :: 0 <= k < |parts| ==> sep !in parts[k]
    ensures Split(Join(parts, sep), sep) == parts
  {
    if |parts| > 1 {
      SplitJoin(parts[1..], sep);
      SplitAfterSep(parts[0], sep, Join(parts[1..], sep));
    }
  }
}
