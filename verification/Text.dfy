// Splitting and joining strings at a separator character.
module Text {
  function Split(s: string, sep: char): (parts: seq<string>)
    ensures |parts| >= 1
  {
    if s == "" then [""]
    else
      var rest := Split(s[1..], sep);
      if s[0] == sep then [""] + rest else [[s[0]] + rest[0]] + rest[1..]
  }

  // At most `limit` splits, from the left.
  function SplitMax(s: string, sep: char, limit: nat): (parts: seq<string>)
    ensures 1 <= |parts| <= limit + 1
  {
    if limit == 0 || s == "" then [s]
    else if s[0] == sep then [""] + SplitMax(s[1..], sep, limit - 1)
    else
      var rest := SplitMax(s[1..], sep, limit);
      [[s[0]] + rest[0]] + rest[1..]
  }

  function Join(parts: seq<string>, sep: char): string {
    if parts == [] then ""
    else if |parts| == 1 then parts[0]
    else parts[0] + [sep] + Join(parts[1..], sep)
  }

  predicate Free(part: string, sep: char) { sep !in part }

  predicate AllFree(parts: seq<string>, sep: char) {
    forall i | 0 <= i < |parts| :: Free(parts[i], sep)
  }

  lemma {:induction false} JoinOfSplit(s: string, sep: char)
    ensures Join(Split(s, sep), sep) == s
    ensures AllFree(Split(s, sep), sep)
  {
    if s != "" {
      var rest := Split(s[1..], sep);
      JoinOfSplit(s[1..], sep);
      if s[0] == sep {
        assert ([""] + rest)[1..] == rest;
      } else {
        assert ([[s[0]] + rest[0]] + rest[1..])[1..] == rest[1..];
      }
      assert s == [s[0]] + s[1..];
    }
  }

  lemma {:induction false} SplitPart(part: string, sep: char)
    requires Free(part, sep)
    ensures Split(part, sep) == [part]
  {
    if part != "" {
      SplitPart(part[1..], sep);
      assert part == [part[0]] + part[1..];
    }
  }

  lemma PartsConcat(c: char, left: seq<string>, right: seq<string>)
    requires left != []
    ensures [""] + (left + right) == ([""] + left) + right
    ensures [[c] + (left + right)[0]] + (left + right)[1..] == ([[c] + left[0]] + left[1..]) + right
  {
  }

  // Splitting takes a concatenation around a separator apart.
  lemma {:induction false} SplitConcat(left: string, right: string, sep: char)
    ensures Split(left + [sep] + right, sep) == Split(left, sep) + Split(right, sep)
  {
    var s := left + [sep] + right;
    if left == "" {
      assert s[1..] == right;
    } else {
      SplitConcat(left[1..], right, sep);
      assert s[1..] == left[1..] + [sep] + right;
      PartsConcat(left[0], Split(left[1..], sep), Split(right, sep));
    }
  }

  lemma {:induction false} SplitJoinFree(parts: seq<string>, sep: char)
    requires parts != [] && AllFree(parts, sep)
    ensures Split(Join(parts, sep), sep) == parts
  {
    if |parts| == 1 {
      SplitPart(parts[0], sep);
    } else {
      SplitJoinFree(parts[1..], sep);
      assert Free(parts[0], sep);
      SplitPart(parts[0], sep);
      SplitConcat(parts[0], Join(parts[1..], sep), sep);
    }
  }

  // Joining is undone by splitting exactly for the non-empty lists without separators in their parts.
  lemma SplitOfJoin(parts: seq<string>, sep: char)
    ensures Split(Join(parts, sep), sep) == parts <==> parts != [] && AllFree(parts, sep)
  {
    JoinOfSplit(Join(parts, sep), sep);
    if parts != [] && AllFree(parts, sep) {
      SplitJoinFree(parts, sep);
    }
  }

  // A limit that is not reached does not matter.
  lemma {:induction false} SplitMaxOfFew(s: string, sep: char, limit: nat)
    requires |Split(s, sep)| <= limit + 1
    ensures SplitMax(s, sep, limit) == Split(s, sep)
    decreases s
  {
    if s != "" && limit == 0 {
      JoinOfSplit(s, sep);
    } else if s != "" {
      if s[0] == sep {
        SplitMaxOfFew(s[1..], sep, limit - 1);
      } else {
        SplitMaxOfFew(s[1..], sep, limit);
      }
    }
  }
}
