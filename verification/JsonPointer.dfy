/** JSON-pointer escaping: json_uri::escape and unescape, after sections 3 and 4 of RFC 6901. */
module JsonPointer {
  import opened Wrappers

  // ---- escaping ----

  /** s with every c replaced by rep. */
  function Replaced(s: string, c: char, rep: string): string {
    if s == "" then "" else (if s[0] == c then rep else [s[0]]) + Replaced(s[1..], c, rep)
  }

  /** What escaping makes of one character. */
  function EscapedChar(c: char): string {
    if c == '~' then "~0" else if c == '/' then "~1" else if c == '%' then "%25" else [c]
  }

  function Escaped(s: string): string {
    if s == "" then "" else EscapedChar(s[0]) + Escaped(s[1..])
  }

  /** What unescaping means: "~0" and "~1" from the left, and nothing else. */
  function Unescaped(s: string): string {
    if s == "" then ""
    else if s[0] == '~' && |s| > 1 && s[1] == '0' then "~" + Unescaped(s[2..])
    else if s[0] == '~' && |s| > 1 && s[1] == '1' then "/" + Unescaped(s[2..])
    else [s[0]] + Unescaped(s[1..])
  }

  /** string::find: the first c at or after pos. */
  method FindChar(l: string, c: char, pos: nat) returns (r: Option<nat>)
    requires pos <= |l|
    ensures r.None? ==> forall i | pos <= i < |l| :: l[i] != c
    ensures r.Some? ==> pos <= r.value < |l| && l[r.value] == c && forall i | pos <= i < r.value :: l[i] != c
  {
    var i := pos;
    while i < |l|
      invariant pos <= i <= |l| && forall k | pos <= k < i :: l[k] != c
    {
      if l[i] == c {
        return Some(i);
      }
      i := i + 1;
    }
    r := None;
  }

  /** string::rfind: the last c at or before pos. */
  method RFindChar(l: string, c: char, end: nat) returns (r: Option<nat>)
    requires end <= |l|
    ensures r.None? ==> forall i | 0 <= i < end :: l[i] != c
    ensures r.Some? ==> r.value < end && l[r.value] == c && forall i | r.value < i < end :: l[i] != c
  {
    var i := end;
    while i > 0
      invariant 0 <= i <= end && forall k | i <= k < end :: l[k] != c
    {
      i := i - 1;
      if l[i] == c {
        return Some(i);
      }
    }
    r := None;
  }

  lemma {:induction false} ReplacedSkips(s: string, c: char, rep: string, n: nat)
    requires n <= |s| && forall i | 0 <= i < n :: s[i] != c
    ensures Replaced(s, c, rep) == s[..n] + Replaced(s[n..], c, rep)
  {
    if n > 0 {
      ReplacedSkips(s[1..], c, rep, n - 1);
      assert s[1..][..n - 1] == s[1..n] && s[1..][n - 1..] == s[n..];
      assert s[..n] == [s[0]] + s[1..n];
    }
  }

  lemma ReplacedAtFirst(s: string, k: nat, c: char, rep: string)
    requires k < |s| && s[k] == c && forall i | 0 <= i < k :: s[i] != c
    ensures Replaced(s, c, rep) == (s[..k] + rep) + Replaced(s[k + 1..], c, rep)
  {
    ReplacedSkips(s, c, rep, k);
    assert s[k..][1..] == s[k + 1..];
  }

  lemma SplitAt(done: string, rest: string, k: nat)
    requires k < |rest|
    ensures (done + rest)[..|done| + k] == done + rest[..k] && (done + rest)[|done| + k + 1..] == rest[k + 1..]
    ensures (done + rest)[|done| + k] == rest[k]
  {
  }

  /** The string while a pass is at work on it: `done` is behind the position, `rest` before it. */
  ghost predicate Passing(s: string, l: string, done: string, rest: string, c: char, rep: string) {
    l == done + rest && done + Replaced(rest, c, rep) == Replaced(s, c, rep)
  }

  /** One replacement, of the first c of the rest. */
  lemma PassStep(s: string, l: string, done: string, rest: string, c: char, rep: string, k: nat, l': string)
    returns (done': string, rest': string)
    requires Passing(s, l, done, rest, c, rep)
    requires k < |rest| && rest[k] == c && forall i | 0 <= i < k :: rest[i] != c
    requires l' == l[..|done| + k] + rep + l[|done| + k + 1..]
    ensures Passing(s, l', done', rest', c, rep) && |done'| == |done| + k + |rep| && |rest'| < |rest|
  {
    SplitAt(done, rest, k);
    ReplacedAtFirst(rest, k, c, rep);
    done', rest' := done + (rest[..k] + rep), rest[k + 1..];
    assert l' == done' + rest';
  }

  lemma PassEnds(s: string, l: string, done: string, rest: string, c: char, rep: string)
    requires Passing(s, l, done, rest, c, rep) && forall i | 0 <= i < |rest| :: rest[i] != c
    ensures l == Replaced(s, c, rep)
  {
    ReplacedSkips(rest, c, rep, |rest|);
  }

  /** One find-and-replace pass over the string. */
  method ReplacePass(s: string, c: char, rep: string) returns (l: string)
    ensures l == Replaced(s, c, rep)
  {
    l := s;
    var pos := 0;
    ghost var done, rest := "", s;
    while true
      invariant Passing(s, l, done, rest, c, rep) && pos == |done|
      decreases |rest|
    {
      var at := FindChar(l, c, pos);
      assert forall j | 0 <= j < |rest| :: rest[j] == l[pos + j];
      if at.None? {
        PassEnds(s, l, done, rest, c, rep);
        break;
      }
      var next := l[..at.value] + rep + l[at.value + 1..];
      done, rest := PassStep(s, l, done, rest, c, rep, at.value - pos, next);
      l := next;
      pos := at.value + |rep|;
    }
  }

  lemma {:induction false} ReplacedConcat(a: string, b: string, c: char, rep: string)
    ensures Replaced(a + b, c, rep) == Replaced(a, c, rep) + Replaced(b, c, rep)
  {
    if a == "" {
      assert a + b == b;
    } else {
      ReplacedConcat(a[1..], b, c, rep);
      var head, x, y := if a[0] == c then rep else [a[0]], Replaced(a[1..], c, rep), Replaced(b, c, rep);
      assert (a + b)[0] == a[0] && (a + b)[1..] == a[1..] + b;
      assert Replaced(a + b, c, rep) == head + (x + y);
      assert head + (x + y) == (head + x) + y;
    }
  }

  function ThreePasses(s: string): string {
    Replaced(Replaced(Replaced(s, '~', "~0"), '/', "~1"), '%', "%25")
  }

  /** The three passes one after the other escape each character once. */
  lemma {:induction false} PassesAreEscaping(s: string)
    ensures ThreePasses(s) == Escaped(s)
  {
    if s != "" {
      PassesAreEscaping(s[1..]);
      var head := if s[0] == '~' then "~0" else [s[0]];
      var tail := Replaced(s[1..], '~', "~0");
      ReplacedConcat(head, tail, '/', "~1");
      ReplacedConcat(Replaced(head, '/', "~1"), Replaced(tail, '/', "~1"), '%', "%25");
      OneChar(s[0], head);
    }
  }

  lemma OneChar(c: char, head: string)
    requires head == if c == '~' then "~0" else [c]
    ensures Replaced(Replaced(head, '/', "~1"), '%', "%25") == EscapedChar(c)
  {
    if c == '~' {
      assert head[1..] == "0" && "0"[1..] == "";
      assert Replaced("0", '/', "~1") == "0" && Replaced("0", '%', "%25") == "0";
      assert Replaced(head, '/', "~1") == "~0";
      assert "~0"[1..] == "0";
    } else if c == '/' {
      assert head[1..] == "" && Replaced(head, '/', "~1") == "~1";
      assert "~1"[1..] == "1" && "1"[1..] == "" && Replaced("1", '%', "%25") == "1";
    } else {
      assert head[1..] == "" && Replaced(head, '/', "~1") == head;
    }
  }

  /** escape */
  method Escape(src: string) returns (l: string)
    ensures l == Escaped(src)
  {
    l := src;
    l := ReplacePass(l, '~', "~0");
    l := ReplacePass(l, '/', "~1");
    l := ReplacePass(l, '%', "%25");
    PassesAreEscaping(src);
  }

  lemma {:induction false} UnescapedSkips(s: string, n: nat)
    requires n <= |s| && forall i | 0 <= i < n :: s[i] != '~'
    ensures Unescaped(s) == s[..n] + Unescaped(s[n..])
  {
    if n > 0 {
      UnescapedSkips(s[1..], n - 1);
      var t := Unescaped(s[n..]);
      assert s[1..][..n - 1] == s[1..n] && s[1..][n - 1..] == s[n..];
      assert Unescaped(s) == [s[0]] + (s[1..n] + t);
      assert s[..n] + t == [s[0]] + (s[1..n] + t);
    }
  }

  /** Unescaping never brings a '0' or '1' to the front that was not there. */
  lemma UnescapedFront(t: string)
    ensures t == "" <==> Unescaped(t) == ""
    ensures t != "" ==> (t[0] == '0' <==> Unescaped(t)[0] == '0') && (t[0] == '1' <==> Unescaped(t)[0] == '1')
    ensures t != "" && t[0] != '~' ==> Unescaped(t)[1..] == Unescaped(t[1..])
  {
  }

  /** The string while unescape is at work on it: the part from end on is done. */
  ghost predicate HalfDone(src: string, l: string, end: nat) {
    end <= |src| && end <= |l| && l[..end] == src[..end] && l[end..] == Unescaped(src[end..])
  }

  /** unescape: the loop works on the tildes from the right. */
  method Unescape(src: string) returns (l: string)
    ensures l == Unescaped(src)
  {
    l := src;
    var end: nat := |src|;
    assert src[|src|..] == "";
    while true
      invariant HalfDone(src, l, end)
      decreases end
    {
      var at := RFindChar(l, '~', end);
      if at.None? {
        NothingToLeft(src, l, end);
        break;
      }
      var pos := at.value;
      SkipToTilde(src, l, pos, end);
      TildeStep(src, l, pos);
      if pos < |l| - 1 {
        if l[pos + 1] == '0' {
          l := l[..pos] + "~" + l[pos + 2..];
        } else if l[pos + 1] == '1' {
          l := l[..pos] + "/" + l[pos + 2..];
        }
      }
      if pos == 0 {
        assert src[0..] == src && l[0..] == l;
        break;
      }
      end := pos;
    }
  }

  lemma NothingToLeft(src: string, l: string, end: nat)
    requires HalfDone(src, l, end) && forall i | 0 <= i < end :: l[i] != '~'
    ensures l == Unescaped(src)
  {
    assert forall i | 0 <= i < end :: src[i] == src[..end][i] == l[..end][i];
    UnescapedSkips(src, end);
    assert l == l[..end] + l[end..];
  }

  /** What follows the last tilde before end is done. */
  lemma SkipToTilde(src: string, l: string, pos: nat, end: nat)
    requires HalfDone(src, l, end) && pos < end && l[pos] == '~' && forall i | pos < i < end :: l[i] != '~'
    ensures src[pos] == '~' && HalfDone(src, l, pos + 1)
  {
    var t, n := src[pos + 1..], end - pos - 1;
    assert forall i | 0 <= i < end :: src[i] == src[..end][i] == l[..end][i];
    UnescapedSkips(t, n);
    assert t[n..] == src[end..] && t[..n] == l[pos + 1..end];
    assert l[pos + 1..] == l[pos + 1..end] + l[end..];
  }

  /** The string after the tilde at pos is dealt with. */
  function Stepped(l: string, pos: nat): string
    requires pos < |l|
  {
    if pos < |l| - 1 && l[pos + 1] == '0' then l[..pos] + "~" + l[pos + 2..]
    else if pos < |l| - 1 && l[pos + 1] == '1' then l[..pos] + "/" + l[pos + 2..]
    else l
  }

  lemma TildeStep(src: string, l: string, pos: nat)
    requires pos < |src| && src[pos] == '~' && HalfDone(src, l, pos + 1)
    ensures HalfDone(src, Stepped(l, pos), pos)
  {
    var t, u := src[pos + 1..], l[pos + 1..];
    UnescapedFront(t);
    assert src[pos..] == ['~'] + t && l[pos] == l[..pos + 1][pos] == '~';
    assert l[..pos] == l[..pos + 1][..pos] && src[..pos] == src[..pos + 1][..pos];
    if u != "" {
      assert l[pos + 2..] == u[1..] && src[pos..][2..] == t[1..] && src[pos..][1] == t[0];
    }
    assert src[pos..][1..] == t && l[pos..] == ['~'] + u;
    var next := Stepped(l, pos);
    assert next[..pos] == l[..pos];
    assert next[pos..] == Unescaped(src[pos..]);
  }

  // ---- laws of escaping ----

  lemma {:induction false} NoSlash(s: string)
    ensures '/' !in Escaped(s)
  {
    if s != "" {
      NoSlash(s[1..]);
      assert '/' !in EscapedChar(s[0]);
    }
  }

  /** Unescaping an escaped string leaves only the percent signs escaped. */
  lemma {:induction false} UnescapedEscaped(s: string)
    ensures Unescaped(Escaped(s)) == Replaced(s, '%', "%25")
  {
    if s != "" {
      UnescapedEscaped(s[1..]);
      var e, rest := Escaped(s), Escaped(s[1..]);
      if s[0] == '~' || s[0] == '/' {
        assert e[2..] == rest;
      } else if s[0] == '%' {
        assert e[..3] == "%25" && e[3..] == rest;
        UnescapedSkips(e, 3);
      } else {
        assert e[1..] == rest;
      }
    }
  }

  lemma {:induction false} ReplacedLength(s: string)
    ensures |Replaced(s, '%', "%25")| >= |s|
    ensures '%' in s ==> |Replaced(s, '%', "%25")| > |s|
  {
    if s != "" {
      ReplacedLength(s[1..]);
      assert '%' in s ==> s[0] == '%' || '%' in s[1..];
    }
  }

  /** Escaping and unescaping give back the string exactly when it has no percent sign. */
  lemma RoundTripIff(s: string)
    ensures Unescaped(Escaped(s)) == s <==> '%' !in s
  {
    UnescapedEscaped(s);
    ReplacedLength(s);
    if '%' !in s {
      ReplacedSkips(s, '%', "%25", |s|);
    }
  }

  lemma {:induction false} EscapedInjective(s: string, t: string)
    requires Escaped(s) == Escaped(t)
    ensures s == t
  {
    if s != "" && t != "" {
      FirstChar(s[0], Escaped(s[1..]), t[0], Escaped(t[1..]));
      EscapedInjective(s[1..], t[1..]);
      assert s == [s[0]] + s[1..] && t == [t[0]] + t[1..];
    }
  }

  /** The escapes of two characters never run into each other. */
  lemma FirstChar(c: char, r: string, d: char, q: string)
    requires EscapedChar(c) + r == EscapedChar(d) + q
    ensures c == d && r == q
  {
    var x, y := EscapedChar(c) + r, EscapedChar(d) + q;
    assert x[0] == EscapedChar(c)[0] && y[0] == EscapedChar(d)[0];
    assert |EscapedChar(c)| > 1 ==> x[1] == EscapedChar(c)[1];
    assert |EscapedChar(d)| > 1 ==> y[1] == EscapedChar(d)[1];
    assert r == x[|EscapedChar(c)|..] && q == y[|EscapedChar(d)|..];
  }
}
