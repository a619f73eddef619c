/** Strings as the services see them: white space, searching, splitting, stripping
    and decimal numerals. */
module Text {

  datatype Option<+T> = None | Some(value: T)

  /** The code points that both `str.strip` and the regular expression class `\s` treat as white space. */
  predicate IsSpace(c: char) {
    var n := c as int;
    9 <= n <= 13 || 28 <= n <= 32 || n == 0x85 || n == 0xA0 || n == 0x1680 || 0x2000 <= n <= 0x200A
    || n == 0x2028 || n == 0x2029 || n == 0x202F || n == 0x205F || n == 0x3000
  }

  predicate AllSpace(s: string) {
    forall i :: 0 <= i < |s| ==> IsSpace(s[i])
  }

  /** The characters of `s` that are not white space, in order. */
  function NonSpace(s: string): string {
    if s == "" then "" else (if IsSpace(s[0]) then "" else [s[0]]) + NonSpace(s[1..])
  }

  lemma {:induction false} NonSpaceConcat(a: string, b: string)
    ensures NonSpace(a + b) == NonSpace(a) + NonSpace(b)
  {
    if a == "" {
      assert a + b == b;
    } else {
      assert (a + b)[1..] == a[1..] + b;
      NonSpaceConcat(a[1..], b);
    }
  }

  lemma {:induction false} NonSpaceOfSpace(s: string)
    requires AllSpace(s)
    ensures NonSpace(s) == ""
  {
    if s != "" {
      NonSpaceOfSpace(s[1..]);
    }
  }

  /** `str.join` with an empty separator. */
  function Concat(parts: seq<string>): string {
    if parts == [] then "" else parts[0] + Concat(parts[1..])
  }

  lemma {:induction false} ConcatAppend(a: seq<string>, b: seq<string>)
    ensures Concat(a + b) == Concat(a) + Concat(b)
  {
    if a == [] {
      assert a + b == b;
    } else {
      assert (a + b)[1..] == a[1..] + b;
      ConcatAppend(a[1..], b);
    }
  }

  /** One more string at the end of a list. */
  lemma ConcatSnoc(a: seq<string>, x: string)
    ensures Concat(a + [x]) == Concat(a) + x
  {
    ConcatAppend(a, [x]);
    assert Concat([x]) == x + Concat([x][1..]);
  }

  /** `a` can be had from `b` by leaving elements out. */
  ghost predicate Subsequence<T>(a: seq<T>, b: seq<T>) {
    if a == [] then true
    else if b == [] then false
    else if a[|a| - 1] == b[|b| - 1] && Subsequence(a[..|a| - 1], b[..|b| - 1]) then true
    else Subsequence(a, b[..|b| - 1])
  }

  lemma SubsequenceSnoc<T>(a: seq<T>, b: seq<T>, x: T)
    requires Subsequence(a, b)
    ensures Subsequence(a + [x], b + [x])
    ensures Subsequence(a, b + [x])
  {
    assert (a + [x])[..|a|] == a && (b + [x])[..|b|] == b;
    if a != [] && a[|a| - 1] == x {
      SubsequenceInit(a, b);
    }
  }

  lemma {:induction false} SubsequenceInit<T>(a: seq<T>, b: seq<T>)
    requires a != [] && Subsequence(a, b)
    ensures Subsequence(a[..|a| - 1], b)
    decreases |b|
  {
    var a', b' := a[..|a| - 1], b[..|b| - 1];
    if a[|a| - 1] == b[|b| - 1] && Subsequence(a', b') {
      if a' != [] && a'[|a'| - 1] == b[|b| - 1] {
        SubsequenceInit(a', b');
      }
    } else {
      SubsequenceInit(a, b');
      if a' != [] && a'[|a'| - 1] == b[|b| - 1] {
        SubsequenceInit(a', b');
      }
    }
  }

  lemma AppendAssoc<T>(a: seq<T>, b: seq<T>, c: seq<T>)
    ensures a + (b + c) == (a + b) + c
  {
  }

  lemma SliceOfSlice(s: string, a: int, b: int, c: int, d: int)
    requires 0 <= a <= b <= |s| && 0 <= c <= d <= b - a
    ensures s[a..b][c..d] == s[a + c..a + d]
  {
    var l, r := s[a..b][c..d], s[a + c..a + d];
    assert |l| == |r| && forall k :: 0 <= k < |l| ==> l[k] == s[a + c + k] == r[k];
  }

  predicate OccursAt(s: string, sep: string, i: nat) {
    i + |sep| <= |s| && s[i..i + |sep|] == sep
  }

  /** The first occurrence of `sep` in `s`, or `|s|` when there is none (`str.find` with another sentinel). */
  function Find(s: string, sep: string): (k: nat)
    requires sep != ""
    ensures k <= |s|
    ensures k < |s| ==> OccursAt(s, sep, k)
    ensures forall i: nat :: i < k ==> !OccursAt(s, sep, i)
  {
    FindFrom(s, sep, 0)
  }

  function FindFrom(s: string, sep: string, from: nat): (k: nat)
    requires sep != "" && from <= |s|
    ensures from <= k <= |s|
    ensures k < |s| ==> OccursAt(s, sep, k)
    ensures forall i: nat :: from <= i < k ==> !OccursAt(s, sep, i)
    decreases |s| - from
  {
    if from == |s| || OccursAt(s, sep, from) then from else FindFrom(s, sep, from + 1)
  }

  /** `str.split(sep)` for a non-empty separator: leftmost, non-overlapping. */
  function Split(s: string, sep: string): (parts: seq<string>)
    requires sep != ""
    ensures parts != []
    decreases |s|
  {
    var k := Find(s, sep);
    if k == |s| then [s] else [s[..k]] + Split(s[k + |sep|..], sep)
  }

  /** No part of a split still contains the separator. */
  lemma {:induction false} SplitPartsAreFree(s: string, sep: string)
    requires sep != ""
    ensures forall j, i: nat :: 0 <= j < |Split(s, sep)| ==> !OccursAt(Split(s, sep)[j], sep, i)
    decreases |s|
  {
    var k := Find(s, sep);
    if k < |s| {
      SplitPartsAreFree(s[k + |sep|..], sep);
      var rest := Split(s[k + |sep|..], sep);
      forall j, i: nat | 0 <= j < |Split(s, sep)|
        ensures !OccursAt(Split(s, sep)[j], sep, i)
      {
        if j == 0 {
          OccursInPrefix(s, k, sep, i);
        } else {
          assert Split(s, sep)[j] == rest[j - 1];
        }
      }
    } else {
      assert forall i: nat :: OccursAt(s, sep, i) ==> i < |s|;
    }
  }

  lemma OccursInPrefix(s: string, k: nat, sep: string, i: nat)
    requires k <= |s| && sep != ""
    ensures OccursAt(s[..k], sep, i) ==> i < k && OccursAt(s, sep, i)
  {
    assert i + |sep| <= k ==> s[..k][i..i + |sep|] == s[i..i + |sep|];
  }

  /** The parts of a split with the separator put back in front of every part but the first. */
  function Glue(raw: seq<string>, sep: string): (parts: seq<string>)
    ensures |parts| == |raw|
    ensures forall i :: 0 <= i < |raw| ==> parts[i] == if i == 0 then raw[i] else sep + raw[i]
  {
    seq(|raw|, i requires 0 <= i < |raw| => if i == 0 then raw[i] else sep + raw[i])
  }

  lemma ConcatHead(x: string, y: string, rest: seq<string>)
    ensures Concat([x + y] + rest) == x + Concat([y] + rest)
  {
    assert ([x + y] + rest)[1..] == rest && ([y] + rest)[1..] == rest;
    assert (x + y) + Concat(rest) == x + (y + Concat(rest));
  }

  lemma GlueCons(a: string, rest: seq<string>, sep: string)
    requires rest != []
    ensures Glue([a] + rest, sep) == [a] + ([sep + Glue(rest, sep)[0]] + Glue(rest, sep)[1..])
  {
  }

  lemma GlueConcat(a: string, rest: seq<string>, sep: string)
    requires rest != []
    ensures Concat(Glue([a] + rest, sep)) == a + (sep + Concat(Glue(rest, sep)))
  {
    var tail := Glue(rest, sep);
    assert [tail[0]] + tail[1..] == tail;
    GlueCons(a, rest, sep);
    ConcatHead(sep, tail[0], tail[1..]);
    assert ([a] + ([sep + tail[0]] + tail[1..]))[1..] == [sep + tail[0]] + tail[1..];
  }

  lemma CutAt(s: string, sep: string, k: nat)
    requires OccursAt(s, sep, k)
    ensures s == s[..k] + (sep + s[k + |sep|..])
  {
  }

  lemma {:induction false} GlueRebuilds(s: string, sep: string)
    requires sep != ""
    ensures Concat(Glue(Split(s, sep), sep)) == s
    decreases |s|
  {
    var k := Find(s, sep);
    if k == |s| {
      assert Glue([s], sep) == [s];
      assert Concat([s]) == s;
    } else {
      var t := s[k + |sep|..];
      assert Split(s, sep) == [s[..k]] + Split(t, sep);
      GlueRebuilds(t, sep);
      GlueConcat(s[..k], Split(t, sep), sep);
      CutAt(s, sep, k);
    }
  }

  function TrimLeft(s: string): string {
    if s != "" && IsSpace(s[0]) then TrimLeft(s[1..]) else s
  }

  function TrimRight(s: string): string {
    if s != "" && IsSpace(s[|s| - 1]) then TrimRight(s[..|s| - 1]) else s
  }

  /** `str.strip`. */
  function Strip(s: string): string {
    TrimRight(TrimLeft(s))
  }

  /** A string that stripping leaves alone. */
  predicate Trimmed(s: string) {
    s == "" || (!IsSpace(s[0]) && !IsSpace(s[|s| - 1]))
  }

  lemma {:induction false} TrimLeftLaws(s: string)
    ensures |TrimLeft(s)| <= |s| && NonSpace(TrimLeft(s)) == NonSpace(s)
    ensures TrimLeft(s) != "" ==> !IsSpace(TrimLeft(s)[0]) && TrimLeft(s)[|TrimLeft(s)| - 1] == s[|s| - 1]
  {
    if s != "" && IsSpace(s[0]) {
      TrimLeftLaws(s[1..]);
      NonSpaceConcat([s[0]], s[1..]);
      NonSpaceOfSpace([s[0]]);
      assert s == [s[0]] + s[1..];
    }
  }

  lemma {:induction false} TrimRightLaws(s: string)
    ensures |TrimRight(s)| <= |s| && NonSpace(TrimRight(s)) == NonSpace(s)
    ensures TrimRight(s) != "" ==> !IsSpace(TrimRight(s)[|TrimRight(s)| - 1]) && TrimRight(s)[0] == s[0]
  {
    if s != "" && IsSpace(s[|s| - 1]) {
      var n := |s| - 1;
      TrimRightLaws(s[..n]);
      NonSpaceConcat(s[..n], [s[n]]);
      NonSpaceOfSpace([s[n]]);
      assert s == s[..n] + [s[n]];
    }
  }

  lemma StripIsTrimmed(s: string)
    ensures Trimmed(Strip(s)) && |Strip(s)| <= |s|
    ensures Trimmed(s) ==> Strip(s) == s
  {
    TrimLeftLaws(s);
    TrimRightLaws(TrimLeft(s));
  }

  lemma StripKeepsNonSpace(s: string)
    ensures NonSpace(Strip(s)) == NonSpace(s)
  {
    TrimLeftLaws(s);
    TrimRightLaws(TrimLeft(s));
  }

  /** `not s.strip()` tests for a blank string. */
  lemma StripEmpty(s: string)
    ensures Strip(s) == "" <==> AllSpace(s)
  {
    StripKeepsNonSpace(s);
    StripIsTrimmed(s);
    NonSpaceIsEmpty(s);
    NonSpaceIsEmpty(Strip(s));
  }

  lemma {:induction false} NonSpaceIsEmpty(s: string)
    ensures NonSpace(s) == "" <==> AllSpace(s)
  {
    if s != "" {
      var n := |s| - 1;
      NonSpaceIsEmpty(s[..n]);
      NonSpaceConcat(s[..n], [s[n]]);
      assert s == s[..n] + [s[n]];
      assert NonSpace([s[n]]) == if IsSpace(s[n]) then "" else [s[n]];
    }
  }

  /** Decimal numerals, as printed by an f-string: without leading zeros. */
  function Decimal(n: nat): (s: string)
    ensures s != "" && forall i :: 0 <= i < |s| ==> '0' <= s[i] <= '9'
    ensures n > 0 ==> s[0] != '0'
  {
    var d := [('0' as int + n % 10) as char];
    if n < 10 then d else Decimal(n / 10) + d
  }

  /** The value of a string of ASCII digits. */
  function Value(s: string): nat
    requires forall i :: 0 <= i < |s| ==> '0' <= s[i] <= '9'
  {
    if s == "" then 0 else 10 * Value(s[..|s| - 1]) + (s[|s| - 1] as int - '0' as int)
  }

  /** Reading a numeral back gives the number, so distinct numbers have distinct numerals. */
  lemma {:induction false} ValueOfDecimal(n: nat)
    ensures Value(Decimal(n)) == n
  {
    var s := Decimal(n);
    if n >= 10 {
      ValueOfDecimal(n / 10);
      assert s[..|s| - 1] == Decimal(n / 10);
    } else {
      assert s[..0] == "";
    }
  }
}
