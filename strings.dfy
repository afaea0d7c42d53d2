/** Foundation's `components(separatedBy: "/")` and `joined(separator: "/")`,
    on which every revision of the path model builds its string forms. */
module Strings {
  import opened General

  const Separator: char := '/'

  /** `s.components(separatedBy: sep)` for a one-character separator: the
      text between separators, in order; the empty string gives `[""]`. */
  function SplitOn(s: string, sep: char): (r: seq<string>)
    ensures |r| >= 1
    ensures forall i :: 0 <= i < |r| ==> sep !in r[i]
    ensures r[0] == "" <==> |s| == 0 || s[0] == sep
  {
    if |s| == 0 then [""]
    else
      var rest := SplitOn(s[1..], sep);
      if s[0] == sep then [""] + rest
      else [[s[0]] + rest[0]] + rest[1..]
  }

  /** `s.components(separatedBy: "/")`. */
  function Split(s: string): (r: seq<string>)
    ensures |r| >= 1
    ensures forall i :: 0 <= i < |r| ==> Separator !in r[i]
    ensures r[0] == "" <==> |s| == 0 || s[0] == Separator
  {
    SplitOn(s, Separator)
  }

  /** `parts.joined(separator: "/")`. */
  function Join(parts: seq<string>): string
  {
    if |parts| == 0 then ""
    else if |parts| == 1 then parts[0]
    else parts[0] + [Separator] + Join(parts[1..])
  }

  /** No part contains the separator. */
  predicate SeparatorFree(parts: seq<string>)
  {
    forall i :: 0 <= i < |parts| ==> Separator !in parts[i]
  }

  predicate EndsWithSeparator(s: string)
  {
    |s| > 0 && s[|s| - 1] == Separator
  }

  /** Splitting loses nothing: joining the parts gives back the string. */
  lemma {:induction false} JoinSplit(s: string)
    ensures Join(Split(s)) == s
  {
    if |s| > 0 {
      var rest := Split(s[1..]);
      JoinSplit(s[1..]);
      if s[0] == Separator {
        assert Split(s) == [""] + rest;
      } else {
        var r := Split(s);
        assert r == [[s[0]] + rest[0]] + rest[1..];
        if |rest| == 1 {
          assert s == [s[0]] + s[1..];
        } else {
          assert Join(rest) == rest[0] + [Separator] + Join(rest[1..]);
          assert r[1..] == rest[1..];
          assert s == [s[0]] + s[1..];
        }
      }
    }
  }

  /** Joining parts without separators and splitting again gives the parts. */
  lemma {:induction false} SplitJoin(parts: seq<string>)
    requires |parts| >= 1
    requires forall i :: 0 <= i < |parts| ==> Separator !in parts[i]
    ensures Split(Join(parts)) == parts
  {
    if |parts| == 1 {
      SplitNoSeparator(parts[0]);
    } else {
      SplitJoin(parts[1..]);
      SplitPrefix(parts[0], Join(parts[1..]));
      assert parts == [parts[0]] + parts[1..];
    }
  }

  /** A string without separators is a single part. */
  lemma {:induction false} SplitNoSeparator(s: string)
    requires Separator !in s
    ensures Split(s) == [s]
  {
    if |s| > 0 {
      SplitNoSeparator(s[1..]);
      assert s == [s[0]] + s[1..];
    }
  }

  /** Splitting `a + "/" + b` for a separator-free `a`. */
  lemma {:induction false} SplitPrefix(a: string, b: string)
    requires Separator !in a
    ensures Split(a + [Separator] + b) == [a] + Split(b)
  {
    if |a| == 0 {
      assert a + [Separator] + b == [Separator] + b;
      assert ([Separator] + b)[1..] == b;
    } else {
      var t := a + [Separator] + b;
      assert t[1..] == a[1..] + [Separator] + b;
      SplitPrefix(a[1..], b);
      assert a == [a[0]] + a[1..];
    }
  }

  /** A leading separator adds an empty first part. */
  lemma SplitAfterSeparator(t: string)
    ensures Split([Separator] + t) == [""] + Split(t)
  {
    assert ([Separator] + t)[1..] == t;
  }

  /** Joining one more part appends a separator and the part. */
  lemma {:induction false} JoinSnoc(parts: seq<string>, x: string)
    requires |parts| >= 1
    ensures Join(parts + [x]) == Join(parts) + [Separator] + x
  {
    if |parts| == 1 {
    } else {
      assert (parts + [x])[1..] == parts[1..] + [x];
      JoinSnoc(parts[1..], x);
    }
  }

  /** A separator splits the string into the parts before it and the parts
      after it. */
  lemma {:induction false} SplitAppend(a: string, b: string)
    ensures Split(a + [Separator] + b) == Split(a) + Split(b)
  {
    if |a| == 0 {
      assert a + [Separator] + b == [Separator] + b;
      assert ([Separator] + b)[1..] == b;
    } else {
      var t := a + [Separator] + b;
      assert t[1..] == a[1..] + [Separator] + b;
      SplitAppend(a[1..], b);
    }
  }

  /** A string without the separator is a single piece. */
  lemma {:induction false} SplitOnNoSeparator(s: string, sep: char)
    requires sep !in s
    ensures SplitOn(s, sep) == [s]
  {
    if |s| > 0 {
      SplitOnNoSeparator(s[1..], sep);
      assert s == [s[0]] + s[1..];
    }
  }

  /** There is a single piece exactly when the separator does not occur. */
  lemma {:induction false} SplitOnSingle(s: string, sep: char)
    ensures |SplitOn(s, sep)| == 1 <==> sep !in s
  {
    if |s| > 0 {
      SplitOnSingle(s[1..], sep);
      assert sep in s <==> s[0] == sep || sep in s[1..];
    }
  }

  /** The last piece is the text after the last separator. */
  lemma {:induction false} SplitOnLastPiece(s: string, sep: char)
    requires sep in s
    ensures var r := SplitOn(s, sep); r[|r| - 1] == s[LastIndex(s, sep).value + 1..]
  {
    var rest := SplitOn(s[1..], sep);
    if sep in s[1..] {
      SplitOnLastPiece(s[1..], sep);
      assert LastIndex(s, sep).value == LastIndex(s[1..], sep).value + 1;
      SplitOnSingle(s[1..], sep);
    } else {
      SplitOnNoSeparator(s[1..], sep);
      assert s[0] == sep;
    }
  }

  /** The last part is empty exactly when the string is empty or ends with
      the separator. */
  lemma {:induction false} SplitOnEndsEmpty(s: string, sep: char)
    ensures var r := SplitOn(s, sep); r[|r| - 1] == "" <==> |s| == 0 || s[|s| - 1] == sep
  {
    if |s| > 0 {
      SplitOnEndsEmpty(s[1..], sep);
      var rest := SplitOn(s[1..], sep);
      if s[0] != sep && |rest| == 1 {
        assert SplitOn(s, sep) == [[s[0]] + rest[0]];
      }
    }
  }
}
