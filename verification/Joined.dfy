/** Strings joined by a separator, and splitJWT's loop (login.go): splitting is the exact inverse of
    joining. The compact form of section 7.1 of RFC 7515 joins its parts with dots. */
module Joined {

  function Join(parts: seq<string>, sep: char): string
    requires parts != []
  {
    if |parts| == 1 then parts[0] else parts[0] + [sep] + Join(parts[1..], sep)
  }

  /** What one more character makes of the parts so far. */
  function Extend(parts: seq<string>, c: char, sep: char): seq<string>
    requires parts != []
  {
    if c == sep then parts + [""] else parts[..|parts| - 1] + [parts[|parts| - 1] + [c]]
  }

  /** The parts between the separators, the last one included. */
  function Split(s: string, sep: char): (parts: seq<string>)
    ensures parts != []
  {
    if s == "" then [""]
    else
      var init, last := s[..|s| - 1], s[|s| - 1];
      Extend(Split(init, sep), last, sep)
  }

  predicate Free(parts: seq<string>, sep: char) {
    forall p | p in parts :: sep !in p
  }

  function Count(s: string, sep: char): nat {
    if s == "" then 0 else Count(s[..|s| - 1], sep) + if s[|s| - 1] == sep then 1 else 0
  }

  lemma {:induction false} JoinAppends(parts: seq<string>, part: string, sep: char)
    requires parts != []
    ensures Join(parts + [part], sep) == Join(parts, sep) + [sep] + part
  {
    if |parts| == 1 {
      assert (parts + [part])[1..] == [part];
    } else {
      assert (parts + [part])[1..] == parts[1..] + [part];
      JoinAppends(parts[1..], part, sep);
    }
  }

  lemma {:induction false} JoinExtendsLast(parts: seq<string>, tail: string, sep: char)
    requires parts != []
    ensures Join(parts[..|parts| - 1] + [parts[|parts| - 1] + tail], sep) == Join(parts, sep) + tail
  {
    var extended := parts[..|parts| - 1] + [parts[|parts| - 1] + tail];
    if |parts| > 1 {
      assert extended[1..] == parts[1..][..|parts| - 2] + [parts[1..][|parts| - 2] + tail];
      JoinExtendsLast(parts[1..], tail, sep);
      assert parts[0] + [sep] + (Join(parts[1..], sep) + tail) == (parts[0] + [sep] + Join(parts[1..], sep)) + tail;
    }
  }

  lemma {:induction false} SplitIsFree(s: string, sep: char)
    ensures Free(Split(s, sep), sep) && |Split(s, sep)| == Count(s, sep) + 1
  {
    if s != "" {
      SplitIsFree(s[..|s| - 1], sep);
    }
  }

  lemma {:induction false} SplitRejoins(s: string, sep: char)
    ensures Join(Split(s, sep), sep) == s
  {
    if s != "" {
      var init, last := s[..|s| - 1], s[|s| - 1];
      var parts := Split(init, sep);
      SplitRejoins(init, sep);
      assert s == init + [last];
      if last == sep {
        JoinAppends(parts, "", sep);
        assert s == Join(parts, sep) + [sep] + "";
      } else {
        JoinExtendsLast(parts, [last], sep);
      }
    }
  }

  /** Joining what was split returns the string; no part holds the separator; there is one more part than
      separators. */
  lemma SplitThenJoin(s: string, sep: char)
    ensures Join(Split(s, sep), sep) == s && Free(Split(s, sep), sep) && |Split(s, sep)| == Count(s, sep) + 1
  {
    SplitIsFree(s, sep);
    SplitRejoins(s, sep);
  }

  lemma ExtendAppends(a: seq<string>, b: seq<string>, c: char, sep: char)
    requires b != []
    ensures Extend(a + b, c, sep) == a + Extend(b, c, sep)
  {
    assert (a + b)[..|a + b| - 1] == a + b[..|b| - 1];
  }

  lemma LastGrows(parts: seq<string>, last: string, c: char, sep: char)
    ensures Extend(parts + [last], c, sep) == if c == sep then parts + [last] + [""] else parts + [last + [c]]
  {
  }

  lemma SplitOneMore(s: string, c: char, sep: char)
    ensures Split(s + [c], sep) == Extend(Split(s, sep), c, sep)
  {
    assert (s + [c])[..|s + [c]| - 1] == s;
  }

  /** The pieces of two strings joined are those of the one and then those of the other. */
  lemma {:induction false} SplitAppends(s: string, tail: string, sep: char)
    ensures Split(s + [sep] + tail, sep) == Split(s, sep) + Split(tail, sep)
  {
    if tail == "" {
      SplitOneMore(s, sep, sep);
      assert s + [sep] + tail == s + [sep];
    } else {
      var init, last := tail[..|tail| - 1], tail[|tail| - 1];
      SplitAppends(s, init, sep);
      assert s + [sep] + tail == s + [sep] + init + [last];
      SplitOneMoreAfter(s + [sep] + init, s + [sep] + tail, Split(s, sep), init, tail, last, sep);
    }
  }

  lemma SplitOneMoreAfter(whole: string, whole': string, before: seq<string>, init: string, tail: string, last: char,
                          sep: char)
    requires whole' == whole + [last] && tail == init + [last]
    requires Split(whole, sep) == before + Split(init, sep)
    ensures Split(whole', sep) == before + Split(tail, sep)
  {
    SplitOneMore(whole, last, sep);
    SplitOneMore(init, last, sep);
    ExtendAppends(before, Split(init, sep), last, sep);
  }

  lemma {:induction false} SplitWhole(part: string, sep: char)
    requires sep !in part
    ensures Split(part, sep) == [part]
  {
    if part != "" {
      SplitWhole(part[..|part| - 1], sep);
      assert part == part[..|part| - 1] + [part[|part| - 1]];
    }
  }

  /** Splitting a join of separator-free parts returns the parts. */
  lemma {:induction false} JoinThenSplit(parts: seq<string>, sep: char)
    requires parts != [] && Free(parts, sep)
    ensures Split(Join(parts, sep), sep) == parts
  {
    if |parts| == 1 {
      SplitWhole(parts[0], sep);
    } else {
      var init, last := parts[..|parts| - 1], parts[|parts| - 1];
      assert parts == init + [last];
      JoinAppends(init, last, sep);
      JoinThenSplit(init, sep);
      SplitAppends(Join(init, sep), last, sep);
      SplitWhole(last, sep);
    }
  }

  /** Separator-free parts are told apart by their join. */
  lemma JoinIsInjective(a: seq<string>, b: seq<string>, sep: char)
    requires a != [] && b != [] && Free(a, sep) && Free(b, sep)
    ensures Join(a, sep) == Join(b, sep) <==> a == b
  {
    JoinThenSplit(a, sep);
    JoinThenSplit(b, sep);
  }

  /** splitJWT: the parts of a token, by one pass over its bytes. */
  method SplitJwt(token: string) returns (parts: seq<string>)
    ensures parts == Split(token, '.')
    ensures Join(parts, '.') == token && Free(parts, '.') && |parts| == Count(token, '.') + 1
  {
    parts := [];
    var start := 0;
    for i := 0 to |token|
      invariant 0 <= start <= i
      invariant parts + [token[start..i]] == Split(token[..i], '.')
    {
      assert token[..i + 1] == token[..i] + [token[i]];
      SplitOneMore(token[..i], token[i], '.');
      LastGrows(parts, token[start..i], token[i], '.');
      if token[i] == '.' {
        parts := parts + [token[start..i]];
        start := i + 1;
        assert token[start..i + 1] == "";
      } else {
        assert token[start..i + 1] == token[start..i] + [token[i]];
      }
    }
    assert token[..|token|] == token && token[start..|token|] == token[start..];
    parts := parts + [token[start..]];
    SplitThenJoin(token, '.');
  }
}
