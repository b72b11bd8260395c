/**
 * The .NET string operations the core relies on: whitespace classes,
 * `string.IsNullOrWhiteSpace`, `Trim`, `string.Join`, and the substring test
 * behind a `Contains` query.
 */
module Text {
  import opened Common

  /** `char.IsWhiteSpace`: the characters .NET classes as white space. */
  predicate IsWhiteSpace(c: char) {
    var n := c as int;
    || (0x09 <= n <= 0x0D) || n == 0x20 || n == 0x85 || n == 0xA0 || n == 0x1680
    || (0x2000 <= n <= 0x200A) || n == 0x2028 || n == 0x2029 || n == 0x202F
    || n == 0x205F || n == 0x3000
  }

  /** The white space integer parsing skips around a number: tab, line feed, vertical tab, form feed, carriage return and space. */
  predicate IsNumberWhite(c: char) {
    var n := c as int;
    (0x09 <= n <= 0x0D) || n == 0x20
  }

  predicate IsBlank(s: string) {
    forall i | 0 <= i < |s| :: IsWhiteSpace(s[i])
  }

  /** `string.IsNullOrWhiteSpace`. */
  predicate IsNullOrWhiteSpace(s: Option<string>) {
    s.None? || IsBlank(s.value)
  }

  /** `s` without its leading characters of class `white`. */
  function TrimStart(s: string, white: char -> bool): (r: string)
    ensures |r| <= |s| && r == s[|s| - |r|..]
    ensures forall i | 0 <= i < |s| - |r| :: white(s[i])
    ensures |r| > 0 ==> !white(r[0])
    decreases |s|
  {
    if |s| > 0 && white(s[0]) then
      var rest := s[1..];
      var r := TrimStart(rest, white);
      assert rest[|rest| - |r|..] == s[|s| - |r|..];
      assert forall i | 1 <= i < |s| - |r| :: s[i] == rest[i - 1];
      r
    else s
  }

  /** `s` without its trailing characters of class `white`. */
  function TrimEnd(s: string, white: char -> bool): (r: string)
    ensures |r| <= |s| && r == s[..|r|]
    ensures forall i | |r| <= i < |s| :: white(s[i])
    ensures |r| > 0 ==> !white(r[|r| - 1])
    decreases |s|
  {
    if |s| > 0 && white(s[|s| - 1]) then
      var rest := s[..|s| - 1];
      var r := TrimEnd(rest, white);
      assert rest[..|r|] == s[..|r|];
      assert forall i | |r| <= i < |rest| :: s[i] == rest[i];
      r
    else s
  }

  /** `s` without its leading and trailing characters of class `white`. */
  function TrimBy(s: string, white: char -> bool): (r: string)
    ensures var e := TrimEnd(s, white); |r| <= |e| && r == s[|e| - |r|..|e|]
    ensures |r| > 0 ==> !white(r[0]) && !white(r[|r| - 1])
    ensures |r| == 0 <==> forall i | 0 <= i < |s| :: white(s[i])
  {
    TrimStart(TrimEnd(s, white), white)
  }

  /** `string.Trim()`. */
  function Trim(s: string): string {
    TrimBy(s, IsWhiteSpace)
  }

  /** Trimming an already trimmed string changes nothing. */
  lemma TrimIdempotent(s: string)
    ensures Trim(Trim(s)) == Trim(s)
  {
    var t := Trim(s);
    assert TrimEnd(t, IsWhiteSpace) == t;
    assert TrimStart(t, IsWhiteSpace) == t;
  }

  /** A string that is not blank keeps at least one character through `Trim`, and that string is not blank either. */
  lemma TrimNotBlank(s: string)
    requires !IsBlank(s)
    ensures |Trim(s)| > 0 && !IsBlank(Trim(s))
  {
  }

  /** `string.Join(sep, xs)`. */
  function Join(sep: string, xs: seq<string>): string
    decreases |xs|
  {
    if |xs| == 0 then ""
    else if |xs| == 1 then xs[0]
    else xs[0] + sep + Join(sep, xs[1..])
  }

  /** Appending an element to a non-empty list appends the separator and that element to the joined text. */
  lemma {:induction false} JoinSnoc(sep: string, xs: seq<string>, x: string)
    requires |xs| > 0
    ensures Join(sep, xs + [x]) == Join(sep, xs) + sep + x
    decreases |xs|
  {
    if |xs| == 1 {
      assert (xs + [x])[1..] == [x];
    } else {
      assert (xs + [x])[1..] == xs[1..] + [x];
      JoinSnoc(sep, xs[1..], x);
    }
  }

  function TotalLength(xs: seq<string>): nat {
    if |xs| == 0 then 0 else |xs[0]| + TotalLength(xs[1..])
  }

  /** The joined text holds every element and one separator between each neighbouring pair. */
  lemma {:induction false} JoinLength(sep: string, xs: seq<string>)
    requires |xs| > 0
    ensures |Join(sep, xs)| == TotalLength(xs) + (|xs| - 1) * |sep|
    decreases |xs|
  {
    if |xs| > 1 {
      JoinLength(sep, xs[1..]);
    }
  }

  /** Position of the first occurrence of `c` in `s`. */
  function IndexOf(s: string, c: char): (r: nat)
    requires c in s
    ensures r < |s| && s[r] == c && c !in s[..r]
  {
    if s[0] == c then 0 else 1 + IndexOf(s[1..], c)
  }

  /** `s.Split(c)`: the pieces between occurrences of `c`. */
  function Split(s: string, c: char): (r: seq<string>)
    ensures |r| > 0
    decreases |s|
  {
    if c !in s then [s]
    else
      var i := IndexOf(s, c);
      [s[..i]] + Split(s[i + 1..], c)
  }

  /**
   * Splitting a joined list at its one-character separator gives the list
   * back, provided no element contains the separator.
   */
  lemma {:induction false} SplitJoin(xs: seq<string>, c: char)
    requires |xs| > 0
    requires forall i | 0 <= i < |xs| :: c !in xs[i]
    ensures Split(Join([c], xs), c) == xs
    decreases |xs|
  {
    if |xs| > 1 {
      var rest := Join([c], xs[1..]);
      var s := Join([c], xs);
      assert s == xs[0] + [c] + rest;
      assert s[|xs[0]|] == c;
      var i := IndexOf(s, c);
      assert i == |xs[0]|;
      assert s[..i] == xs[0];
      assert s[i + 1..] == rest;
      SplitJoin(xs[1..], c);
    }
  }

  /** `s` begins with `prefix`. */
  predicate StartsWith(s: string, prefix: string) {
    |prefix| <= |s| && s[..|prefix|] == prefix
  }

  /** `s.Contains(sub)`, which a query translates to `LIKE '%sub%'`. */
  predicate Contains(s: string, sub: string)
    decreases |s|
  {
    StartsWith(s, sub) || (|s| > 0 && Contains(s[1..], sub))
  }

  /** `sub` occurs in `s` starting at index `k`. */
  predicate OccursAt(s: string, sub: string, k: nat) {
    k + |sub| <= |s| && s[k..k + |sub|] == sub
  }

  /** What `Contains` finds is a substring of `s` at some index. */
  lemma {:induction false} ContainsFound(s: string, sub: string)
    requires Contains(s, sub)
    ensures exists k | 0 <= k :: OccursAt(s, sub, k)
    decreases |s|
  {
    if StartsWith(s, sub) {
      assert OccursAt(s, sub, 0);
    } else {
      ContainsFound(s[1..], sub);
      var k :| 0 <= k && OccursAt(s[1..], sub, k);
      assert s[1..][k..k + |sub|] == s[k + 1..k + 1 + |sub|];
      assert OccursAt(s, sub, k + 1);
    }
  }

  /** `Contains` finds every substring of `s`, wherever it starts. */
  lemma {:induction false} ContainsSubstring(s: string, sub: string, k: nat)
    requires k + |sub| <= |s| && s[k..k + |sub|] == sub
    ensures Contains(s, sub)
    decreases k
  {
    if k > 0 {
      assert s[1..][k - 1..k - 1 + |sub|] == sub;
      ContainsSubstring(s[1..], sub, k - 1);
    }
  }
}
