/** The JavaScript string operations the source relies on: `trim`, `split`
    on a one-character separator, `join`, and `length` in UTF-16 code units.
    Strings are sequences of Unicode scalar values. */
module Text {
  import opened Seqs

  /** The code points `String.prototype.trim` removes: the ECMAScript
      WhiteSpace set (TAB, VT, FF, SPACE, NBSP, ZWNBSP and the Zs category)
      and the LineTerminator set (LF, CR, LS, PS). */
  predicate IsWhitespace(c: char) {
    || c == '\t' || c == '\n' || c == '\U{000B}' || c == '\U{000C}' || c == '\r'
    || c == ' ' || c == '\U{00A0}' || c == '\U{1680}'
    || ('\U{2000}' <= c <= '\U{200A}')
    || c == '\U{2028}' || c == '\U{2029}' || c == '\U{202F}' || c == '\U{205F}'
    || c == '\U{3000}' || c == '\U{FEFF}'
  }

  predicate AllWhitespace(s: string) {
    forall i :: 0 <= i < |s| ==> IsWhitespace(s[i])
  }

  /** Neither the first nor the last character is whitespace. */
  predicate IsTrimmed(s: string) {
    s == [] || (!IsWhitespace(s[0]) && !IsWhitespace(s[|s| - 1]))
  }

  /** The number of whitespace characters `s` starts with. */
  function LeadingSpace(s: string): (n: nat)
    ensures n <= |s|
    ensures forall k :: 0 <= k < n ==> IsWhitespace(s[k])
    ensures n == |s| || !IsWhitespace(s[n])
  {
    if |s| > 0 && IsWhitespace(s[0]) then 1 + LeadingSpace(s[1..]) else 0
  }

  /** The number of whitespace characters `s` ends with. */
  function TrailingSpace(s: string): (n: nat)
    ensures n <= |s|
    ensures forall k :: |s| - n <= k < |s| ==> IsWhitespace(s[k])
    ensures n == |s| || !IsWhitespace(s[|s| - n - 1])
  {
    if |s| > 0 && IsWhitespace(s[|s| - 1]) then 1 + TrailingSpace(s[..|s| - 1]) else 0
  }

  /** `String.prototype.trim`: the infix of `s` that starts after its
      leading whitespace, is trimmed itself, and leaves only whitespace
      after it. */
  function Trim(s: string): (r: string)
    ensures IsTrimmed(r)
    ensures LeadingSpace(s) + |r| <= |s|
    ensures r == s[LeadingSpace(s)..LeadingSpace(s) + |r|]
    ensures AllWhitespace(s[..LeadingSpace(s)])
    ensures AllWhitespace(s[LeadingSpace(s) + |r|..])
  {
    var i := LeadingSpace(s);
    var t := s[i..];
    var j := |t| - TrailingSpace(t);
    assert t[j..] == s[i + j..];
    s[i..i + j]
  }

  /** Trimming keeps only characters of the input. */
  lemma TrimSubset(s: string, c: char)
    requires c !in s
    ensures c !in Trim(s)
  {
    var r := Trim(s);
    var i := LeadingSpace(s);
    forall k | 0 <= k < |r| ensures r[k] != c {
      assert r[k] == s[i + k];
    }
  }

  /** A trimmed string is its own trim. */
  lemma {:induction false} TrimTrimmed(s: string)
    requires IsTrimmed(s)
    ensures Trim(s) == s
  {
    assert LeadingSpace(s) == 0;
    assert s[0..] == s;
    assert TrailingSpace(s) == 0;
  }

  /** One leading space in front of a trimmed string is removed by trimming. */
  lemma {:induction false} TrimSpaced(s: string)
    requires IsTrimmed(s)
    ensures Trim(" " + s) == s
  {
    var q := " " + s;
    assert q[1..] == s;
    assert LeadingSpace(s) == 0;
    assert LeadingSpace(q) == 1;
    assert TrailingSpace(s) == 0;
    assert q[1..1 + |s|] == s;
  }

  /** `parts.join(sep)`. */
  function Join(parts: seq<string>, sep: string): (r: string) {
    if |parts| == 0 then ""
    else if |parts| == 1 then parts[0]
    else parts[0] + sep + Join(parts[1..], sep)
  }

  /** No parts join to the empty string, and the first part begins the join. */
  lemma {:induction false} JoinFirst(parts: seq<string>, sep: string)
    ensures |parts| == 0 ==> Join(parts, sep) == ""
    ensures |parts| > 0 ==> parts[0] <= Join(parts, sep)
  {
    if |parts| > 1 {
      assert Join(parts, sep) == parts[0] + (sep + Join(parts[1..], sep));
    }
  }

  /** Every character of a join comes from one of the parts or from the
      separator. */
  lemma {:induction false} JoinChars(parts: seq<string>, sep: string, c: char)
    requires c in Join(parts, sep)
    ensures c in sep || exists i :: 0 <= i < |parts| && c in parts[i]
  {
    if |parts| > 1 {
      var rest := Join(parts[1..], sep);
      if c !in parts[0] && c !in sep {
        assert c in rest;
        JoinChars(parts[1..], sep, c);
        var i :| 0 <= i < |parts[1..]| && c in parts[1..][i];
        assert c in parts[i + 1];
      }
    }
  }

  lemma {:induction false} CountAbsent(s: string, c: char)
    requires c !in s
    ensures Count(s, c) == 0
  {
    if |s| > 0 {
      assert s[0] != c;
      CountAbsent(s[1..], c);
    }
  }

  /** Prefixing a character to the first piece prefixes it to the join. */
  lemma JoinPrefixFirst(c: char, parts: seq<string>, sep: string)
    requires |parts| > 0
    ensures Join([[c] + parts[0]] + parts[1..], sep) == [c] + Join(parts, sep)
  {
    var q := [[c] + parts[0]] + parts[1..];
    assert q[1..] == parts[1..];
  }

  /** `s.split(sep)` for a one-character separator: the maximal separator-free
      pieces between separators; an empty input gives one empty piece. */
  function Split(s: string, sep: char): (parts: seq<string>)
    ensures |parts| == Count(s, sep) + 1
    ensures forall i :: 0 <= i < |parts| ==> sep !in parts[i]
    ensures Join(parts, [sep]) == s
  {
    if |s| == 0 then [""]
    else
      assert s == [s[0]] + s[1..];
      var rest := Split(s[1..], sep);
      if s[0] == sep then
        var parts := [""] + rest;
        assert parts[1..] == rest;
        assert forall i :: 1 <= i < |parts| ==> parts[i] == rest[i - 1];
        parts
      else
        var parts := [[s[0]] + rest[0]] + rest[1..];
        assert forall i :: 1 <= i < |parts| ==> parts[i] == rest[i];
        JoinPrefixFirst(s[0], rest, [sep]);
        parts
  }

  /** A separator-free string is a single piece. */
  lemma {:induction false} SplitNoSeparator(s: string, sep: char)
    requires sep !in s
    ensures Split(s, sep) == [s]
  {
    CountAbsent(s, sep);
  }

  /** Splitting a string that starts with a separator gives an empty first piece. */
  lemma SplitLeadingSeparator(sep: char, b: string)
    ensures Split([sep] + b, sep) == [""] + Split(b, sep)
  {
    assert ([sep] + b)[1..] == b;
  }

  /** Splitting a string whose first character is not a separator extends the first piece. */
  lemma SplitLeadingChar(c: char, sep: char, t: string)
    requires c != sep
    ensures Split([c] + t, sep) == [[c] + Split(t, sep)[0]] + Split(t, sep)[1..]
  {
    assert ([c] + t)[1..] == t;
  }

  /** Splitting at the first separator: the text before it is the first piece. */
  lemma {:induction false} SplitAtFirst(a: string, sep: char, b: string)
    requires sep !in a
    ensures Split(a + [sep] + b, sep) == [a] + Split(b, sep)
  {
    if |a| == 0 {
      assert a + [sep] + b == [sep] + b;
      SplitLeadingSeparator(sep, b);
    } else {
      var t := a[1..] + [sep] + b;
      assert a + [sep] + b == [a[0]] + t;
      SplitAtFirst(a[1..], sep, b);
      var r := Split(t, sep);
      assert r[0] == a[1..] && r[1..] == Split(b, sep);
      SplitLeadingChar(a[0], sep, t);
      assert [a[0]] + r[0] == a;
    }
  }

  /** Join and split are inverse: a non-empty list of separator-free pieces
      is recovered by splitting its join. */
  lemma {:induction false} SplitJoin(parts: seq<string>, sep: char)
    requires |parts| > 0
    requires forall i :: 0 <= i < |parts| ==> sep !in parts[i]
    ensures Split(Join(parts, [sep]), sep) == parts
  {
    if |parts| == 1 {
      SplitNoSeparator(parts[0], sep);
    } else {
      SplitJoin(parts[1..], sep);
      SplitAtFirst(parts[0], sep, Join(parts[1..], [sep]));
      assert parts == [parts[0]] + parts[1..];
    }
  }

  /** The number of UTF-16 code units of `s`, which is JavaScript's
      `length`: code points above U+FFFF take a surrogate pair. */
  function Utf16Length(s: string): (n: nat)
    ensures |s| <= n <= 2 * |s|
  {
    if |s| == 0 then 0
    else (if s[0] as int > 0xFFFF then 2 else 1) + Utf16Length(s[1..])
  }
}
