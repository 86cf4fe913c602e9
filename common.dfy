/** Optional values, standing for Python's `None` and for dictionary keys that may be absent. */
module Wrappers {
  datatype Option<T> = None | Some(value: T) {
    predicate IsSome() { this.Some? }

    /** The value, or `d` when absent: Python's `dict.get(key, d)`. */
    function GetOr(d: T): T {
      if this.Some? then value else d
    }
  }
}

/** String helpers with the meaning of the Python `str` methods the agent uses. */
module Strings {
  /** `s.startswith(p)` */
  predicate StartsWith(s: string, p: string) {
    |p| <= |s| && s[..|p|] == p
  }

  /** `s.endswith(p)` */
  predicate EndsWith(s: string, p: string) {
    |p| <= |s| && s[|s| - |p|..] == p
  }

  /** `s.rstrip(c)` for a single character `c`. */
  function RStrip(s: string, c: char): (r: string)
    ensures |r| <= |s| && r == s[..|r|]
    ensures |r| > 0 ==> r[|r| - 1] != c
    ensures forall i :: |r| <= i < |s| ==> s[i] == c
    decreases |s|
  {
    if |s| > 0 && s[|s| - 1] == c then RStrip(s[..|s| - 1], c) else s
  }

  /** `s.lstrip(c)` for a single character `c`. */
  function LStrip(s: string, c: char): (r: string)
    ensures |r| <= |s| && r == s[|s| - |r|..]
    ensures |r| > 0 ==> r[0] != c
    ensures forall i :: 0 <= i < |s| - |r| ==> s[i] == c
    decreases |s|
  {
    if |s| > 0 && s[0] == c then LStrip(s[1..], c) else s
  }

  /** `s.strip(c)` for a single character `c`. */
  function Strip(s: string, c: char): string {
    LStrip(RStrip(s, c), c)
  }

  /** Index of the last occurrence of `c` in `s`, or -1. */
  function LastIndexOf(s: string, c: char): (r: int)
    ensures -1 <= r < |s|
    ensures r >= 0 ==> s[r] == c
    ensures forall i :: r < i < |s| ==> s[i] != c
    decreases |s|
  {
    if |s| == 0 then -1
    else if s[|s| - 1] == c then |s| - 1
    else LastIndexOf(s[..|s| - 1], c)
  }

  /** `s.split(c)`: the pieces between occurrences of `c`, built from the last separator back. */
  function Split(s: string, c: char): (parts: seq<string>)
    ensures |parts| >= 1
    decreases |s|
  {
    var j := LastIndexOf(s, c);
    if j < 0 then [s] else Split(s[..j], c) + [s[j + 1..]]
  }

  /** `c.join(parts)` */
  function Join(parts: seq<string>, c: char): string {
    if |parts| == 0 then ""
    else if |parts| == 1 then parts[0]
    else Join(parts[..|parts| - 1], c) + [c] + parts[|parts| - 1]
  }

  /** Every piece of a split is free of the separator. */
  lemma {:induction false} SplitPiecesFree(s: string, c: char)
    ensures forall k :: 0 <= k < |Split(s, c)| ==> c !in Split(s, c)[k]
    decreases |s|
  {
    var j := LastIndexOf(s, c);
    if j >= 0 {
      SplitPiecesFree(s[..j], c);
    }
  }

  /** Joining the pieces of a split gives the string back. */
  lemma {:induction false} JoinSplit(s: string, c: char)
    ensures Join(Split(s, c), c) == s
    decreases |s|
  {
    var j := LastIndexOf(s, c);
    if j >= 0 {
      var init := Split(s[..j], c);
      var parts := init + [s[j + 1..]];
      assert parts[..|parts| - 1] == init;
      JoinSplit(s[..j], c);
      assert s == s[..j] + [c] + s[j + 1..];
    }
  }

  /** Splitting the join of separator-free pieces gives the pieces back. */
  lemma {:induction false} SplitJoin(parts: seq<string>, c: char)
    requires |parts| >= 1
    requires forall k :: 0 <= k < |parts| ==> c !in parts[k]
    ensures Split(Join(parts, c), c) == parts
    decreases |parts|
  {
    if |parts| == 1 {
      LastIndexOfFound(parts[0], c);
    } else {
      var init := parts[..|parts| - 1];
      SplitJoin(init, c);
      SplitAppend(Join(init, c), parts[|parts| - 1], c);
      assert init + [parts[|parts| - 1]] == parts;
    }
  }

  /** Splitting `a + c + b`, where `b` has no `c`, splits `a` and adds `b` as the last piece. */
  lemma SplitAppend(a: string, b: string, c: char)
    requires c !in b
    ensures Split(a + [c] + b, c) == Split(a, c) + [b]
  {
    var s := a + [c] + b;
    assert s[|a|] == c;
    assert forall i :: |a| < i < |s| ==> s[i] == b[i - |a| - 1];
    assert LastIndexOf(s, c) == |a|;
    assert s[..|a|] == a && s[|a| + 1..] == b;
  }

  /** Splitting `a + c + b` splits each side on its own: the pieces of `a`, then those of `b`. */
  lemma {:induction false} SplitConcat(a: string, b: string, c: char)
    ensures Split(a + [c] + b, c) == Split(a, c) + Split(b, c)
    decreases |b|
  {
    var j := LastIndexOf(b, c);
    LastIndexOfFound(b, c);
    if j < 0 {
      SplitAppend(a, b, c);
    } else {
      var head, tail := b[..j], b[j + 1..];
      assert c !in tail by {
        forall k | 0 <= k < |tail|
          ensures tail[k] != c
        {
          assert tail[k] == b[j + 1 + k];
        }
      }
      assert b == head + [c] + tail;
      assert a + [c] + b == (a + [c] + head) + [c] + tail;
      SplitAppend(a + [c] + head, tail, c);
      SplitConcat(a, head, c);
    }
  }

  /** `'/'.join(s.split('/')[:-1]) if '/' in s else ''`: the text before the last separator. */
  function Dirname(s: string, c: char): string {
    if c in s then
      var parts := Split(s, c);
      Join(parts[..|parts| - 1], c)
    else ""
  }

  /** `s.split('/')[-1]`: the text after the last separator. */
  function Basename(s: string, c: char): string {
    var parts := Split(s, c);
    parts[|parts| - 1]
  }

  /** `c` occurs in `s` exactly when it has a last occurrence. */
  lemma LastIndexOfFound(s: string, c: char)
    ensures (c in s) == (LastIndexOf(s, c) >= 0)
  {
    if c in s {
      var i :| 0 <= i < |s| && s[i] == c;
      assert LastIndexOf(s, c) >= i;
    }
  }

  /** The head and the last piece put back together with the separator give the whole string. */
  lemma DirnameBasename(s: string, c: char)
    ensures c !in Basename(s, c)
    ensures c in s ==> Dirname(s, c) + [c] + Basename(s, c) == s
    ensures c !in s ==> Dirname(s, c) == "" && Basename(s, c) == s
  {
    SplitPiecesFree(s, c);
    LastIndexOfFound(s, c);
    var j := LastIndexOf(s, c);
    if j >= 0 {
      var parts := Split(s, c);
      assert parts == Split(s[..j], c) + [s[j + 1..]];
      assert parts[..|parts| - 1] == Split(s[..j], c);
      JoinSplit(s[..j], c);
      assert Dirname(s, c) == s[..j];
      assert Basename(s, c) == s[j + 1..];
      assert s == s[..j] + [c] + s[j + 1..];
    }
  }

  /** Decimal digits of `n`, as `str(n)`. */
  function NatToString(n: nat): (r: string)
    ensures |r| >= 1
    ensures forall i :: 0 <= i < |r| ==> '0' <= r[i] <= '9'
  {
    if n < 10 then [Digit(n)] else NatToString(n / 10) + [Digit(n % 10)]
  }

  function Digit(d: nat): (ch: char)
    requires d < 10
    ensures '0' <= ch <= '9' && ch as int == '0' as int + d
  {
    ('0' as int + d) as char
  }

  /** Distinct numbers have distinct decimal strings. */
  lemma {:induction false} NatToStringInjective(a: nat, b: nat)
    requires NatToString(a) == NatToString(b)
    ensures a == b
    decreases a
  {
    var sa, sb := NatToString(a), NatToString(b);
    assert Digit(a % 10) == sa[|sa| - 1] == sb[|sb| - 1] == Digit(b % 10);
    if a >= 10 && b >= 10 {
      assert NatToString(a / 10) == sa[..|sa| - 1] == sb[..|sb| - 1] == NatToString(b / 10);
      NatToStringInjective(a / 10, b / 10);
    }
  }

  /** `posixpath.join(a, b)`: an absolute `b` replaces `a`; otherwise one '/' separates them. */
  function PathJoin(a: string, b: string): (r: string)
    ensures StartsWith(b, "/") ==> r == b
    ensures !StartsWith(b, "/") && a != "" && !EndsWith(a, "/") ==> r == a + "/" + b
  {
    if StartsWith(b, "/") then b
    else if a == "" || EndsWith(a, "/") then a + b
    else a + "/" + b
  }

  /** `s.replace(x, y)` for single characters. */
  function ReplaceChar(s: string, x: char, y: char): (r: string)
    ensures |r| == |s|
    ensures forall i :: 0 <= i < |s| ==> r[i] == (if s[i] == x then y else s[i])
  {
    if |s| == 0 then "" else ReplaceChar(s[..|s| - 1], x, y) + [if s[|s| - 1] == x then y else s[|s| - 1]]
  }
}
