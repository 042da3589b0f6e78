/** The handful of Go string operations the modelled code relies on, over ASCII text. */
module Text {

  predicate IsSpace(c: char) {
    c == ' ' || c == '\t' || c == '\n' || c == '\r' || c == '\U{0B}' || c == '\U{0C}'
  }

  function TrimLeft(s: string): string {
    if s != "" && IsSpace(s[0]) then TrimLeft(s[1..]) else s
  }

  function TrimRight(s: string): string {
    if s != "" && IsSpace(s[|s| - 1]) then TrimRight(s[..|s| - 1]) else s
  }

  /** strings.TrimSpace */
  function TrimSpace(s: string): string {
    TrimRight(TrimLeft(s))
  }

  function Lower(c: char): char {
    if 'A' <= c <= 'Z' then (c as int + 32) as char else c
  }

  function Upper(c: char): char {
    if 'a' <= c <= 'z' then (c as int - 32) as char else c
  }

  /** strings.ToLower */
  function ToLower(s: string): string {
    seq(|s|, i requires 0 <= i < |s| => Lower(s[i]))
  }

  /** strings.ToUpper */
  function ToUpper(s: string): string {
    seq(|s|, i requires 0 <= i < |s| => Upper(s[i]))
  }

  /** strings.HasPrefix */
  predicate HasPrefix(s: string, p: string) {
    |p| <= |s| && s[..|p|] == p
  }

  /** strings.HasSuffix */
  predicate HasSuffix(s: string, p: string) {
    |p| <= |s| && s[|s| - |p|..] == p
  }

  /** strings.Contains */
  predicate Contains(s: string, sub: string) {
    HasPrefix(s, sub) || (s != "" && Contains(s[1..], sub))
  }

  /** Go's byte-wise `<` on strings. */
  predicate StringLess(a: string, b: string) {
    b != "" && (a == "" || a[0] < b[0] || (a[0] == b[0] && StringLess(a[1..], b[1..])))
  }

  lemma {:induction false} StringLessTrichotomy(a: string, b: string)
    ensures !StringLess(a, a)
    ensures a == b || StringLess(a, b) || StringLess(b, a)
    ensures !(StringLess(a, b) && StringLess(b, a))
  {
    if a != "" {
      StringLessTrichotomy(a[1..], if b == "" then "" else b[1..]);
      if b != "" && a[0] == b[0] && a[1..] == b[1..] {
        assert a == [a[0]] + a[1..] == [b[0]] + b[1..] == b;
      }
    }
  }

  lemma {:induction false} StringLessTransitive(a: string, b: string, c: string)
    requires StringLess(a, b) && StringLess(b, c)
    ensures StringLess(a, c)
  {
    if a != "" && a[0] == b[0] == c[0] {
      StringLessTransitive(a[1..], b[1..], c[1..]);
    }
  }

  /** At `i` the texts part: up to there they are the same, and then `a` ends or has the smaller character. */
  ghost predicate PartsAt(a: string, b: string, i: nat) {
    i <= |a| && i < |b| && a[..i] == b[..i] && (i == |a| || a[i] < b[i])
  }

  /** The order of texts is that of a dictionary. */
  lemma {:induction false} StringLessIsDictionary(a: string, b: string)
    ensures StringLess(a, b) <==> exists i :: PartsAt(a, b, i)
  {
    if StringLess(a, b) {
      if a == "" || a[0] < b[0] {
        assert PartsAt(a, b, 0);
      } else {
        StringLessIsDictionary(a[1..], b[1..]);
        var i: nat :| PartsAt(a[1..], b[1..], i);
        assert a[..i + 1] == [a[0]] + a[1..][..i] && b[..i + 1] == [b[0]] + b[1..][..i];
        assert PartsAt(a, b, i + 1);
      }
    }
    if i: nat :| PartsAt(a, b, i) && i > 0 {
      assert a[0] == a[..i][0] == b[..i][0] == b[0];
      assert a[1..][..i - 1] == a[..i][1..] && b[1..][..i - 1] == b[..i][1..];
      assert PartsAt(a[1..], b[1..], i - 1);
      StringLessIsDictionary(a[1..], b[1..]);
    }
  }

  /** Changing case moves the letters of the other case by 32 and leaves every other character alone. */
  lemma CaseChanges(s: string)
    ensures |ToLower(s)| == |s| && |ToUpper(s)| == |s|
    ensures forall i :: 0 <= i < |s| ==> ToLower(s)[i] as int == s[i] as int + (if 65 <= s[i] as int <= 90 then 32 else 0)
    ensures forall i :: 0 <= i < |s| ==> ToUpper(s)[i] as int == s[i] as int - (if 97 <= s[i] as int <= 122 then 32 else 0)
  {
  }

  /** Blanks, tabs, line breaks and feeds. */
  ghost predicate IsBlank(c: char) {
    c as int == 32 || 9 <= c as int <= 13
  }

  ghost predicate AllBlank(s: string) {
    forall i :: 0 <= i < |s| ==> IsBlank(s[i])
  }

  lemma {:induction false} TrimLeftDrops(s: string) returns (n: nat)
    ensures n <= |s| && TrimLeft(s) == s[n..] && AllBlank(s[..n]) && (n < |s| ==> !IsBlank(s[n]))
  {
    if s != "" && IsSpace(s[0]) {
      n := TrimLeftDrops(s[1..]);
      assert s[..n + 1] == [s[0]] + s[1..][..n] && s[1..][n..] == s[n + 1..];
      n := n + 1;
    } else {
      n := 0;
    }
  }

  lemma {:induction false} TrimRightDrops(s: string) returns (n: nat)
    ensures n <= |s| && TrimRight(s) == s[..n] && AllBlank(s[n..]) && (n > 0 ==> !IsBlank(s[n - 1]))
  {
    if s != "" && IsSpace(s[|s| - 1]) {
      var init := s[..|s| - 1];
      n := TrimRightDrops(init);
      assert s[n..] == init[n..] + [s[|s| - 1]] && init[..n] == s[..n];
    } else {
      n := |s|;
    }
  }

  /** Trimming cuts blanks off both ends, and all of them. */
  lemma TrimSpaceMeans(s: string) returns (lo: nat, hi: nat)
    ensures lo <= hi <= |s| && TrimSpace(s) == s[lo..hi] && AllBlank(s[..lo]) && AllBlank(s[hi..])
    ensures lo < hi ==> !IsBlank(s[lo]) && !IsBlank(s[hi - 1])
  {
    lo := TrimLeftDrops(s);
    var rest := s[lo..];
    var n := TrimRightDrops(rest);
    hi := lo + n;
    assert rest[..n] == s[lo..hi] && rest[n..] == s[hi..];
  }

  /** A text mentions another if that stands somewhere in it. */
  ghost predicate Mentions(s: string, sub: string) {
    exists i :: StandsAt(s, sub, i)
  }

  ghost predicate StandsAt(s: string, sub: string, i: nat) {
    i + |sub| <= |s| && s[i..i + |sub|] == sub
  }

  lemma {:induction false} ContainsMeans(s: string, sub: string)
    ensures Contains(s, sub) <==> Mentions(s, sub)
  {
    if HasPrefix(s, sub) {
      assert StandsAt(s, sub, 0);
    } else if s != "" {
      ContainsMeans(s[1..], sub);
      if i: nat :| StandsAt(s[1..], sub, i) {
        assert s[1..][i..i + |sub|] == s[i + 1..i + 1 + |sub|];
        assert StandsAt(s, sub, i + 1);
      }
      if i: nat :| StandsAt(s, sub, i) {
        assert i > 0;
        assert s[1..][i - 1..i - 1 + |sub|] == s[i..i + |sub|];
        assert StandsAt(s[1..], sub, i - 1);
      }
    }
  }
}
