/**
 * The string operations the browser frame relies on, with the meaning the JVM gives them:
 * `toLowerCase`, `endsWith`, splitting a class name on '/' and joining path names.
 */
module Text {
  import opened Options

  /** `Character.toLowerCase` on ASCII: upper-case Latin letters become lower case, every other character is kept. */
  function LowerChar(c: char): char {
    if 'A' <= c <= 'Z' then (c as int + 32) as char else c
  }

  /** `String.toLowerCase`. */
  function Lower(s: string): (r: string)
    ensures |r| == |s|
    ensures forall k :: 0 <= k < |s| ==> r[k] == LowerChar(s[k])
  {
    if |s| == 0 then "" else [LowerChar(s[0])] + Lower(s[1..])
  }

  predicate IsLowerCase(s: string) {
    Lower(s) == s
  }

  /** `String.endsWith`. */
  predicate EndsWith(s: string, suffix: string) {
    |suffix| <= |s| && s[|s| - |suffix|..] == suffix
  }

  lemma LowerConcat(a: string, b: string)
    ensures Lower(a + b) == Lower(a) + Lower(b)
  {
    forall k | 0 <= k < |a| + |b|
      ensures Lower(a + b)[k] == (Lower(a) + Lower(b))[k]
    {
      if k < |a| {
        assert (a + b)[k] == a[k];
      } else {
        assert (a + b)[k] == b[k - |a|];
      }
    }
  }

  lemma EndsWithAppended(a: string, b: string)
    ensures EndsWith(a + b, b)
  {
    assert (a + b)[|a|..] == b;
  }

  lemma EndsWithSnoc(a: string, c: char, x: string, d: char)
    ensures EndsWith(a + [c], x + [d]) <==> EndsWith(a, x) && c == d
  {
    var s := a + [c];
    if EndsWith(s, x + [d]) {
      assert s[|s| - 1] == (x + [d])[|x|];
      assert a[|a| - |x|..] == s[|s| - |x| - 1..|s| - 1];
      assert s[|s| - |x| - 1..|s| - 1] == (x + [d])[..|x|];
      assert (x + [d])[..|x|] == x;
    }
    if EndsWith(a, x) && c == d {
      assert s[|s| - |x| - 1..] == a[|a| - |x|..] + [c];
    }
  }

  /** The text after the last '.', or None when the string has no '.': the file extension. */
  function Extension(s: string): (e: Option<string>)
    ensures e.Some? ==> '.' !in e.value
    decreases |s|
  {
    if |s| == 0 then None
    else if s[|s| - 1] == '.' then Some("")
    else match Extension(s[..|s| - 1])
      case None => None
      case Some(t) => Some(t + [s[|s| - 1]])
  }

  /** Ending in "." + e is the same as having the extension e, for an e without dots. */
  lemma {:induction false} EndsWithExtension(s: string, e: string)
    requires '.' !in e
    ensures EndsWith(s, "." + e) <==> Extension(s) == Some(e)
    decreases |s|
  {
    if |s| == 0 {
    } else {
      var c := s[|s| - 1];
      var init := s[..|s| - 1];
      assert s == init + [c];
      if e == [] {
        assert "." + e == [] + ['.'];
        EndsWithSnoc(init, c, [], '.');
        assert EndsWith(init, []) by { assert init[|init|..] == []; }
      } else {
        var e' := e[..|e| - 1];
        var d := e[|e| - 1];
        assert e == e' + [d];
        assert "." + e == ("." + e') + [d];
        EndsWithSnoc(init, c, "." + e', d);
        if c == '.' {
          assert d != '.';
        } else {
          EndsWithExtension(init, e');
          match Extension(init)
          case None =>
          case Some(t) =>
            if t + [c] == e {
              assert t == (t + [c])[..|t|];
            }
        }
      }
    }
  }

  /** Kotlin's `split(Regex)` on a one-character separator: every separator cuts, and empty parts are kept. */
  function Split(s: string, sep: char): (parts: seq<string>)
    ensures |parts| >= 1
    ensures forall k :: 0 <= k < |parts| ==> sep !in parts[k]
    decreases |s|
  {
    if |s| == 0 then [""]
    else
      var rest := Split(s[1..], sep);
      if s[0] == sep then [""] + rest
      else [[s[0]] + rest[0]] + rest[1..]
  }

  /** The parts with the separator between each two of them. */
  function Join(parts: seq<string>, sep: char): string
  {
    if |parts| == 0 then ""
    else if |parts| == 1 then parts[0]
    else parts[0] + [sep] + Join(parts[1..], sep)
  }

  lemma {:induction false} JoinOfSplit(s: string, sep: char)
    ensures Join(Split(s, sep), sep) == s
    decreases |s|
  {
    if |s| > 0 {
      var rest := Split(s[1..], sep);
      JoinOfSplit(s[1..], sep);
      assert s == [s[0]] + s[1..];
      if s[0] != sep && |rest| > 1 {
        var parts := Split(s, sep);
        assert parts[1..] == rest[1..];
        assert Join(rest, sep) == rest[0] + [sep] + Join(rest[1..], sep);
      }
    }
  }

  lemma {:induction false} SplitWithoutSeparator(a: string, sep: char)
    requires sep !in a
    ensures Split(a, sep) == [a]
    decreases |a|
  {
    if |a| > 0 {
      SplitWithoutSeparator(a[1..], sep);
      assert a == [a[0]] + a[1..];
    }
  }

  lemma {:induction false} SplitAtFirstSeparator(a: string, sep: char, t: string)
    requires sep !in a
    ensures Split(a + [sep] + t, sep) == [a] + Split(t, sep)
    decreases |a|
  {
    var s := a + [sep] + t;
    if |a| == 0 {
      assert s[1..] == t;
    } else {
      assert s[1..] == a[1..] + [sep] + t;
      SplitAtFirstSeparator(a[1..], sep, t);
      assert [s[0]] + a[1..] == a;
    }
  }

  /** Joining parts that hold no separator and splitting again gives the parts back. */
  lemma {:induction false} SplitOfJoin(parts: seq<string>, sep: char)
    requires |parts| >= 1
    requires forall k :: 0 <= k < |parts| ==> sep !in parts[k]
    ensures Split(Join(parts, sep), sep) == parts
    decreases |parts|
  {
    if |parts| == 1 {
      SplitWithoutSeparator(parts[0], sep);
    } else {
      SplitAtFirstSeparator(parts[0], sep, Join(parts[1..], sep));
      SplitOfJoin(parts[1..], sep);
    }
  }

  /** Appending x to the last part appends x to the joined string. */
  lemma {:induction false} JoinExtendLast(parts: seq<string>, sep: char, x: string)
    requires |parts| >= 1
    ensures Join(parts[..|parts| - 1] + [parts[|parts| - 1] + x], sep) == Join(parts, sep) + x
    decreases |parts|
  {
    if |parts| > 1 {
      var q := parts[..|parts| - 1] + [parts[|parts| - 1] + x];
      var tail := parts[1..];
      assert q[1..] == tail[..|tail| - 1] + [tail[|tail| - 1] + x];
      JoinExtendLast(tail, sep, x);
    }
  }

  /** The joined string starts with the first part. */
  lemma JoinStartsWithFirst(parts: seq<string>, sep: char)
    requires |parts| >= 1
    ensures |parts[0]| <= |Join(parts, sep)| && Join(parts, sep)[..|parts[0]|] == parts[0]
  {
    if |parts| > 1 {
      assert Join(parts, sep) == parts[0] + ([sep] + Join(parts[1..], sep));
    }
  }

  /** `String.lastIndexOf(c)`: the position of the last c, None when there is none. */
  function LastIndexOf(s: string, c: char): (r: Option<nat>)
    ensures r.None? ==> c !in s
    ensures r.Some? ==> r.value < |s| && s[r.value] == c
    ensures r.Some? ==> forall j :: r.value < j < |s| ==> s[j] != c
    decreases |s|
  {
    if |s| == 0 then None
    else if s[|s| - 1] == c then Some(|s| - 1)
    else LastIndexOf(s[..|s| - 1], c)
  }
}
