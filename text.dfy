/** String operations of the JavaScript runtime and of PostgreSQL that the
    handlers rely on: `trim`, `split`/`join`, ASCII `toLowerCase`, the
    `/[^a-z0-9]+/g` replacement used by every slug formula, and decimal
    rendering and parsing of integers. */
module Text {
  import opened Values

  // ---------------------------------------------------------------- trim

  /** The characters `String.prototype.trim` removes: WhiteSpace and
      LineTerminator of the ECMAScript grammar. */
  predicate IsJsWhitespace(c: char)
  {
    c == ' ' || c == '\t' || c == '\n' || c == '\r' || c == '\U{000B}' || c == '\U{000C}'
    || c == '\U{00A0}' || c == '\U{1680}' || ('\U{2000}' <= c <= '\U{200A}')
    || c == '\U{2028}' || c == '\U{2029}' || c == '\U{202F}' || c == '\U{205F}'
    || c == '\U{3000}' || c == '\U{FEFF}'
  }

  function TrimStart(s: string): (r: string)
    ensures |r| <= |s| && r == s[|s| - |r|..]
    ensures forall k :: 0 <= k < |s| - |r| ==> IsJsWhitespace(s[k])
    ensures r != [] ==> !IsJsWhitespace(r[0])
  {
    if s != [] && IsJsWhitespace(s[0]) then TrimStart(s[1..]) else s
  }

  function TrimEnd(s: string): (r: string)
    ensures |r| <= |s| && r == s[..|r|]
    ensures forall k :: |r| <= k < |s| ==> IsJsWhitespace(s[k])
    ensures r != [] ==> !IsJsWhitespace(r[|r| - 1])
  {
    if s != [] && IsJsWhitespace(s[|s| - 1]) then TrimEnd(s[..|s| - 1]) else s
  }

  predicate AllWhitespace(t: string)
  {
    forall k :: 0 <= k < |t| ==> IsJsWhitespace(t[k])
  }

  /** `s.trim()`: the piece of `s` left after dropping whitespace at both ends. */
  function Trim(s: string): (r: string)
    ensures (exists i :: 0 <= i <= |s| && AllWhitespace(s[..i]) && |r| <= |s[i..]|
                && r == s[i..][..|r|] && AllWhitespace(s[i..][|r|..]))
    ensures r != [] ==> !IsJsWhitespace(r[0]) && !IsJsWhitespace(r[|r| - 1])
  {
    var a := TrimStart(s);
    var r := TrimEnd(a);
    var i := |s| - |a|;
    assert s[i..] == a;
    assert AllWhitespace(s[..i]) by {
      forall k | 0 <= k < i
        ensures IsJsWhitespace(s[..i][k])
      {
        assert s[..i][k] == s[k];
      }
    }
    assert a[..|r|] == r;
    assert AllWhitespace(a[|r|..]) by {
      forall k | 0 <= k < |a| - |r|
        ensures IsJsWhitespace(a[|r|..][k])
      {
        assert a[|r|..][k] == a[|r| + k];
      }
    }
    r
  }

  // ------------------------------------------------------ search and split

  /** Index of the first `c` in `s`, or `|s|` when there is none. */
  function IndexOf(s: string, c: char): (i: nat)
    ensures i <= |s|
    ensures i < |s| ==> s[i] == c
    ensures forall k :: 0 <= k < i ==> s[k] != c
  {
    if s == [] then 0 else if s[0] == c then 0 else 1 + IndexOf(s[1..], c)
  }

  /** `parts.join(c)`. */
  function Join(parts: seq<string>, c: char): string
  {
    if parts == [] then ""
    else if |parts| == 1 then parts[0]
    else parts[0] + [c] + Join(parts[1..], c)
  }

  /** `s.split(c)`: the pieces between the occurrences of `c`; joining them
      back gives `s`. */
  function Split(s: string, c: char): (parts: seq<string>)
    ensures |parts| >= 1
    ensures forall k :: 0 <= k < |parts| ==> c !in parts[k]
    ensures Join(parts, c) == s
    decreases |s|
  {
    var i := IndexOf(s, c);
    if i == |s| then
      [s]
    else
      var rest := Split(s[i + 1..], c);
      assert s == s[..i] + [c] + s[i + 1..];
      [s[..i]] + rest
  }

  /** Splitting a join of separator-free pieces gives the pieces back. */
  lemma {:induction false} SplitJoin(parts: seq<string>, c: char)
    requires |parts| >= 1
    requires forall k :: 0 <= k < |parts| ==> c !in parts[k]
    ensures Split(Join(parts, c), c) == parts
  {
    if |parts| > 1 {
      var s := Join(parts, c);
      var p := parts[0];
      assert s == p + [c] + Join(parts[1..], c);
      assert s[|p|] == c;
      assert forall k :: 0 <= k < |p| ==> s[k] == p[k] && s[k] != c;
      assert IndexOf(s, c) == |p|;
      assert s[..|p|] == p;
      assert s[|p| + 1..] == Join(parts[1..], c);
      SplitJoin(parts[1..], c);
      assert parts == [p] + parts[1..];
    }
  }

  /** The first `c` in `p + rest` is where `rest` starts, when `p` has none
      and `rest` is empty or starts with `c`. */
  lemma IndexOfAfter(p: string, rest: string, c: char)
    requires c !in p
    requires rest == [] || rest[0] == c
    ensures IndexOf(p + rest, c) == |p|
  {
    var s := p + rest;
    assert forall k :: 0 <= k < |p| ==> s[k] == p[k];
    if rest != [] {
      assert s[|p|] == c;
    }
  }

  /** A piece without `c` splits into itself. */
  lemma SplitNone(p: string, c: char)
    requires c !in p
    ensures Split(p, c) == [p]
  {
    IndexOfAfter(p, [], c);
    assert p + [] == p;
  }

  /** Splitting peels off the piece before the first `c`. */
  lemma SplitCons(p: string, rest: string, c: char)
    requires c !in p
    ensures Split(p + [c] + rest, c) == [p] + Split(rest, c)
  {
    var s := p + [c] + rest;
    assert s == p + ([c] + rest);
    IndexOfAfter(p, [c] + rest, c);
    assert s[..|p|] == p;
    assert s[|p| + 1..] == rest;
  }

  /** Splitting puts the piece after the last `c` at the end. */
  lemma {:induction false} SplitSnoc(s: string, q: string, c: char)
    requires c !in q
    ensures Split(s + [c] + q, c) == Split(s, c) + [q]
    decreases |s|
  {
    SplitNone(q, c);
    var i := IndexOf(s, c);
    if i == |s| {
      assert c !in s;
      SplitNone(s, c);
      SplitCons(s, q, c);
    } else {
      var p, r := s[..i], s[i + 1..];
      Regroup(s, i, q, c);
      SplitCons(p, r + [c] + q, c);
      SplitCons(p, r, c);
      SplitSnoc(r, q, c);
      AppendLast(p, Split(r, c), q);
    }
  }

  /** Cutting `s` at its `c` at `i`, then appending `[c] + q`. */
  lemma Regroup(s: string, i: nat, q: string, c: char)
    requires i < |s| && s[i] == c
    ensures s == s[..i] + [c] + s[i + 1..]
    ensures s + [c] + q == s[..i] + [c] + (s[i + 1..] + [c] + q)
  {
    assert s == s[..i] + [c] + s[i + 1..];
  }

  lemma AppendLast<T>(p: T, t: seq<T>, q: T)
    ensures [p] + (t + [q]) == [p] + t + [q]
  {
  }

  /** Index of the last `c` in `s`, or -1 when there is none. */
  function LastIndexOf(s: string, c: char): (i: int)
    ensures -1 <= i < |s|
    ensures i >= 0 ==> s[i] == c
    ensures forall k :: i < k < |s| ==> s[k] != c
  {
    if s == [] then -1
    else if s[|s| - 1] == c then |s| - 1
    else LastIndexOf(s[..|s| - 1], c)
  }

  /** In `b + [c] + d` with no `c` in `d`, the last `c` is the one after `b`. */
  lemma {:induction false} LastIndexOfBefore(b: string, c: char, d: string)
    requires c !in d
    ensures LastIndexOf(b + [c] + d, c) == |b|
    decreases |d|
  {
    var s := b + [c] + d;
    if d != [] {
      assert s[|s| - 1] == d[|d| - 1];
      assert s[..|s| - 1] == b + [c] + d[..|d| - 1];
      LastIndexOfBefore(b, c, d[..|d| - 1]);
    }
  }

  // ---------------------------------------------------------- letter case

  /** `toLowerCase` on one character, for ASCII letters. */
  function LowerChar(c: char): char
  {
    if 'A' <= c <= 'Z' then (c as int + 32) as char else c
  }

  function Lower(s: string): (r: string)
    ensures |r| == |s| && forall k :: 0 <= k < |s| ==> r[k] == LowerChar(s[k])
  {
    seq(|s|, k requires 0 <= k < |s| => LowerChar(s[k]))
  }

  // ------------------------------------------------- runs of other characters

  /** A character of the class `[a-z0-9]`. */
  predicate IsSlugChar(c: char)
  {
    'a' <= c <= 'z' || '0' <= c <= '9'
  }

  /** The characters of `s` in `[a-z0-9]`, in order. */
  function SlugChars(s: string): string
  {
    if s == [] then [] else (if IsSlugChar(s[0]) then [s[0]] else []) + SlugChars(s[1..])
  }

  /** Length of the run of characters outside `[a-z0-9]` that starts `s`. */
  function RunLength(s: string): (n: nat)
    ensures n <= |s|
    ensures forall k :: 0 <= k < n ==> !IsSlugChar(s[k])
    ensures n < |s| ==> IsSlugChar(s[n])
  {
    if s == [] || IsSlugChar(s[0]) then 0 else 1 + RunLength(s[1..])
  }

  lemma {:induction false} SlugCharsOfRun(s: string, n: nat)
    requires n <= |s|
    requires forall k :: 0 <= k < n ==> !IsSlugChar(s[k])
    ensures SlugChars(s) == SlugChars(s[n..])
  {
    if n > 0 {
      SlugCharsOfRun(s[1..], n - 1);
      assert s[1..][n - 1..] == s[n..];
    }
  }

  lemma {:induction false} SlugCharsAppend(a: string, b: string)
    ensures SlugChars(a + b) == SlugChars(a) + SlugChars(b)
    decreases |a|
  {
    if a == [] {
      assert a + b == b;
    } else {
      var head := if IsSlugChar(a[0]) then [a[0]] else [];
      assert (a + b)[0] == a[0];
      assert (a + b)[1..] == a[1..] + b;
      calc {
        SlugChars(a + b);
      ==
        head + SlugChars(a[1..] + b);
      == { SlugCharsAppend(a[1..], b); }
        head + (SlugChars(a[1..]) + SlugChars(b));
      == { Associate(head, SlugChars(a[1..]), SlugChars(b)); }
        head + SlugChars(a[1..]) + SlugChars(b);
      }
    }
  }

  /** No two dashes in a row. */
  predicate NoDoubleDash(r: string)
  {
    forall k :: 0 <= k < |r| - 1 ==> !(r[k] == '-' && r[k + 1] == '-')
  }

  /** `s.replace(/[^a-z0-9]+/g, '-')`, which is also what PostgreSQL's
      `regexp_replace(s, '[^a-z0-9]+', '-', 'g')` computes: every maximal run
      of characters outside `[a-z0-9]` becomes one dash. The result holds
      only `[a-z0-9]` and dashes, is empty only for the empty string, and
      starts (ends) with a dash exactly when `s` starts (ends) with a run;
      CollapseRunsKeepsSlugChars and CollapseRunsNoDoubleDash say the rest. */
  function CollapseRuns(s: string): (r: string)
    ensures forall k :: 0 <= k < |r| ==> IsSlugChar(r[k]) || r[k] == '-'
    ensures (r == []) == (s == [])
    ensures s != [] ==> (r[0] == '-') == !IsSlugChar(s[0])
    ensures s != [] ==> (r[|r| - 1] == '-') == !IsSlugChar(s[|s| - 1])
    decreases |s|
  {
    if s == [] then []
    else if IsSlugChar(s[0]) then
      var rest := CollapseRuns(s[1..]);
      assert s[1..] != [] ==> s[1..][|s[1..]| - 1] == s[|s| - 1];
      [s[0]] + rest
    else
      var n := RunLength(s);
      var rest := CollapseRuns(s[n..]);
      assert s[n..] != [] ==> s[n..][|s[n..]| - 1] == s[|s| - 1];
      "-" + rest
  }

  /** Collapsing keeps the `[a-z0-9]` characters, in order. */
  lemma {:induction false} CollapseRunsKeepsSlugChars(s: string)
    ensures SlugChars(CollapseRuns(s)) == SlugChars(s)
    decreases |s|
  {
    if s != [] {
      var r := CollapseRuns(s);
      if IsSlugChar(s[0]) {
        CollapseRunsKeepsSlugChars(s[1..]);
        assert r[1..] == CollapseRuns(s[1..]);
      } else {
        var n := RunLength(s);
        CollapseRunsKeepsSlugChars(s[n..]);
        SlugCharsOfRun(s, n);
        assert r[1..] == CollapseRuns(s[n..]);
      }
    }
  }

  /** Collapsing never leaves two dashes in a row. */
  lemma {:induction false} CollapseRunsNoDoubleDash(s: string)
    ensures NoDoubleDash(CollapseRuns(s))
    decreases |s|
  {
    if s != [] {
      var r := CollapseRuns(s);
      if IsSlugChar(s[0]) {
        CollapseRunsNoDoubleDash(s[1..]);
        var rest := CollapseRuns(s[1..]);
        assert r == [s[0]] + rest;
        forall k | 0 <= k < |r| - 1 ensures !(r[k] == '-' && r[k + 1] == '-') {
          if k > 0 { assert r[k] == rest[k - 1] && r[k + 1] == rest[k]; }
        }
      } else {
        var n := RunLength(s);
        CollapseRunsNoDoubleDash(s[n..]);
        var rest := CollapseRuns(s[n..]);
        assert r == "-" + rest;
        forall k | 0 <= k < |r| - 1 ensures !(r[k] == '-' && r[k + 1] == '-') {
          if k > 0 { assert r[k] == rest[k - 1] && r[k + 1] == rest[k]; }
          else { assert r[1] == rest[0] && s[n..][0] == s[n]; }
        }
      }
    }
  }

  /** A `[a-z0-9]` character on its own is kept as it is. */
  lemma CollapseRunsSlugChar(c: char)
    requires IsSlugChar(c)
    ensures CollapseRuns([c]) == [c]
  {
    assert [c][1..] == [];
  }

  /** A non-empty run of characters outside `[a-z0-9]` becomes one dash. */
  lemma CollapseRunsOfRun(s: string)
    requires s != [] && forall k :: 0 <= k < |s| ==> !IsSlugChar(s[k])
    ensures CollapseRuns(s) == "-"
  {
    assert RunLength(s) == |s|;
    assert s[|s|..] == [];
  }

  /** The run at the front of `x + y` is the one of `x`, unless it fills all
      of `x` and goes on into `y`. */
  lemma {:induction false} RunLengthAppend(x: string, y: string)
    ensures RunLength(x + y) == if RunLength(x) < |x| then RunLength(x) else |x| + RunLength(y)
    decreases |x|
  {
    if x == [] {
      assert x + y == y;
    } else {
      assert (x + y)[0] == x[0];
      if !IsSlugChar(x[0]) {
        assert (x + y)[1..] == x[1..] + y;
        RunLengthAppend(x[1..], y);
      }
    }
  }

  /** One step of the replacement at a `[a-z0-9]` character. */
  lemma CollapseSlugHead(s: string)
    requires s != [] && IsSlugChar(s[0])
    ensures CollapseRuns(s) == [s[0]] + CollapseRuns(s[1..])
  {
  }

  /** One step of the replacement at the start of a run. */
  lemma CollapseRunHead(s: string)
    requires s != [] && !IsSlugChar(s[0])
    ensures CollapseRuns(s) == "-" + CollapseRuns(s[RunLength(s)..])
  {
  }

  lemma Associate<T>(a: seq<T>, b: seq<T>, c: seq<T>)
    ensures a + (b + c) == a + b + c
  {
  }

  /** The replacement works piece by piece when the cut between the pieces
      does not fall inside a run: when `x` ends, or `y` starts, with a
      `[a-z0-9]` character. */
  lemma {:induction false} CollapseRunsAppend(x: string, y: string)
    requires x == [] || y == [] || IsSlugChar(x[|x| - 1]) || IsSlugChar(y[0])
    ensures CollapseRuns(x + y) == CollapseRuns(x) + CollapseRuns(y)
    decreases |x|
  {
    if x == [] {
      assert x + y == y;
    } else if y == [] {
      assert x + y == x;
    } else if IsSlugChar(x[0]) {
      AppendAfterSlugChar(x, y);
    } else {
      AppendAfterRun(x, y);
    }
  }

  lemma {:induction false} AppendAfterSlugChar(x: string, y: string)
    requires x != [] && y != [] && IsSlugChar(x[0])
    requires IsSlugChar(x[|x| - 1]) || IsSlugChar(y[0])
    ensures CollapseRuns(x + y) == CollapseRuns(x) + CollapseRuns(y)
    decreases |x|, 0
  {
    var t := x[1..];
    assert (x + y)[0] == x[0] && (x + y)[1..] == t + y;
    assert t != [] ==> t[|t| - 1] == x[|x| - 1];
    calc {
      CollapseRuns(x + y);
    == { CollapseSlugHead(x + y); }
      [x[0]] + CollapseRuns(t + y);
    == { CollapseRunsAppend(t, y); }
      [x[0]] + (CollapseRuns(t) + CollapseRuns(y));
    == { Associate([x[0]], CollapseRuns(t), CollapseRuns(y)); }
      [x[0]] + CollapseRuns(t) + CollapseRuns(y);
    == { CollapseSlugHead(x); }
      CollapseRuns(x) + CollapseRuns(y);
    }
  }

  lemma {:induction false} AppendAfterRun(x: string, y: string)
    requires x != [] && y != [] && !IsSlugChar(x[0])
    requires IsSlugChar(x[|x| - 1]) || IsSlugChar(y[0])
    ensures CollapseRuns(x + y) == CollapseRuns(x) + CollapseRuns(y)
    decreases |x|, 0
  {
    var n := RunLength(x);
    RunLengthAppend(x, y);
    assert (x + y)[0] == x[0];
    if n < |x| {
      var t := x[n..];
      assert (x + y)[n..] == t + y;
      assert t[|t| - 1] == x[|x| - 1];
      calc {
        CollapseRuns(x + y);
      == { CollapseRunHead(x + y); }
        "-" + CollapseRuns(t + y);
      == { CollapseRunsAppend(t, y); }
        "-" + (CollapseRuns(t) + CollapseRuns(y));
      == { Associate("-", CollapseRuns(t), CollapseRuns(y)); }
        "-" + CollapseRuns(t) + CollapseRuns(y);
      == { CollapseRunHead(x); }
        CollapseRuns(x) + CollapseRuns(y);
      }
    } else {
      assert RunLength(y) == 0;
      assert (x + y)[n..] == y;
      assert x[n..] == [];
      CollapseRunHead(x + y);
      CollapseRunHead(x);
    }
  }

  /** When the cut falls inside a run, the two halves of the run make one
      dash between them. */
  lemma {:induction false} CollapseRunsJoinRuns(x: string, y: string)
    requires x != [] && y != [] && !IsSlugChar(x[|x| - 1]) && !IsSlugChar(y[0])
    ensures CollapseRuns(x + y) == CollapseRuns(x) + CollapseRuns(y)[1..]
    decreases |x|
  {
    if IsSlugChar(x[0]) {
      var t := x[1..];
      assert (x + y)[0] == x[0] && (x + y)[1..] == t + y;
      assert t[|t| - 1] == x[|x| - 1];
      calc {
        CollapseRuns(x + y);
      == { CollapseSlugHead(x + y); }
        [x[0]] + CollapseRuns(t + y);
      == { CollapseRunsJoinRuns(t, y); }
        [x[0]] + (CollapseRuns(t) + CollapseRuns(y)[1..]);
      == { Associate([x[0]], CollapseRuns(t), CollapseRuns(y)[1..]); }
        [x[0]] + CollapseRuns(t) + CollapseRuns(y)[1..];
      == { CollapseSlugHead(x); }
        CollapseRuns(x) + CollapseRuns(y)[1..];
      }
    } else {
      JoinAfterRun(x, y);
    }
  }

  lemma {:induction false} JoinAfterRun(x: string, y: string)
    requires x != [] && y != [] && !IsSlugChar(x[|x| - 1]) && !IsSlugChar(y[0])
    requires !IsSlugChar(x[0])
    ensures CollapseRuns(x + y) == CollapseRuns(x) + CollapseRuns(y)[1..]
    decreases |x|, 1
  {
    if RunLength(x) < |x| {
      JoinAfterShortRun(x, y);
    } else {
      JoinWholeRun(x, y);
    }
  }

  lemma {:induction false} JoinAfterShortRun(x: string, y: string)
    requires x != [] && y != [] && !IsSlugChar(x[|x| - 1]) && !IsSlugChar(y[0])
    requires !IsSlugChar(x[0]) && RunLength(x) < |x|
    ensures CollapseRuns(x + y) == CollapseRuns(x) + CollapseRuns(y)[1..]
    decreases |x|, 0
  {
    var n := RunLength(x);
    RunLengthAppend(x, y);
    assert (x + y)[0] == x[0];
    var t := x[n..];
    assert (x + y)[n..] == t + y;
    assert t[|t| - 1] == x[|x| - 1];
    calc {
      CollapseRuns(x + y);
    == { CollapseRunHead(x + y); }
      "-" + CollapseRuns(t + y);
    == { CollapseRunsJoinRuns(t, y); }
      "-" + (CollapseRuns(t) + CollapseRuns(y)[1..]);
    == { Associate("-", CollapseRuns(t), CollapseRuns(y)[1..]); }
      "-" + CollapseRuns(t) + CollapseRuns(y)[1..];
    == { CollapseRunHead(x); }
      CollapseRuns(x) + CollapseRuns(y)[1..];
    }
  }

  /** A whole run `x` followed by a run at the head of `y` is one run. */
  lemma {:induction false} JoinWholeRun(x: string, y: string)
    requires x != [] && y != [] && !IsSlugChar(y[0])
    requires !IsSlugChar(x[0]) && RunLength(x) == |x|
    ensures CollapseRuns(x + y) == CollapseRuns(x) + CollapseRuns(y)[1..]
  {
    CollapseRunsOfRun(x);
    RunSkip(x, y);
    var r := CollapseRuns(y);
    assert r[0] == '-';
    assert r == "-" + r[1..];
  }

  /** Inside a run, dropping its first character changes nothing. */
  lemma {:induction false} DropRunChar(s: string)
    requires |s| >= 2 && !IsSlugChar(s[0]) && !IsSlugChar(s[1])
    ensures CollapseRuns(s) == CollapseRuns(s[1..])
  {
    var t := s[1..];
    assert RunLength(s) == 1 + RunLength(t);
    assert s[RunLength(s)..] == t[RunLength(t)..];
    CollapseRunHead(s);
    CollapseRunHead(t);
  }

  /** A run in front of another run adds nothing to the replacement. */
  lemma {:induction false} RunSkip(x: string, y: string)
    requires x != [] && y != [] && !IsSlugChar(y[0])
    requires forall k :: 0 <= k < |x| ==> !IsSlugChar(x[k])
    ensures CollapseRuns(x + y) == CollapseRuns(y)
    decreases |x|
  {
    var s := x + y;
    assert s[0] == x[0];
    assert s[1] == if |x| > 1 then x[1] else y[0];
    assert s[1..] == x[1..] + y;
    DropRunChar(s);
    if |x| > 1 {
      RunSkip(x[1..], y);
    } else {
      assert x[1..] + y == y;
    }
  }



  /** The replacement read one character at a time from the left: a
      `[a-z0-9]` character is copied, the first character of a run adds a
      dash, and the rest of the run adds nothing. */
  function ScanRuns(s: string): string
  {
    if s == [] then []
    else
      var init := s[..|s| - 1];
      var c := s[|s| - 1];
      if IsSlugChar(c) then ScanRuns(init) + [c]
      else if init != [] && !IsSlugChar(init[|init| - 1]) then ScanRuns(init)
      else ScanRuns(init) + "-"
  }

  /** The run-by-run replacement and the left-to-right reading agree on
      every string. */
  lemma {:induction false} CollapseRunsIsScan(s: string)
    ensures CollapseRuns(s) == ScanRuns(s)
    decreases |s|
  {
    if s != [] {
      var init, c := s[..|s| - 1], s[|s| - 1];
      assert s == init + [c];
      CollapseRunsIsScan(init);
      if IsSlugChar(c) {
        CollapseRunsAppend(init, [c]);
        CollapseRunsSlugChar(c);
      } else if init != [] && !IsSlugChar(init[|init| - 1]) {
        CollapseRunsJoinRuns(init, [c]);
        CollapseRunsOfRun([c]);
      } else {
        CollapseRunsAppend(init, [c]);
        CollapseRunsOfRun([c]);
      }
    }
  }

  // ------------------------------------------------------- decimal numbers

  predicate IsDigit(c: char)
  {
    '0' <= c <= '9'
  }

  function DigitChar(d: nat): (c: char)
    requires d < 10
    ensures IsDigit(c) && c as int - '0' as int == d
  {
    ('0' as int + d) as char
  }

  /** `String(n)` for a natural number: its decimal digits, without leading
      zeros. */
  function Decimal(n: nat): (r: string)
    ensures |r| >= 1 && forall k :: 0 <= k < |r| ==> IsDigit(r[k])
    ensures n > 0 ==> r[0] != '0'
  {
    if n < 10 then [DigitChar(n)] else Decimal(n / 10) + [DigitChar(n % 10)]
  }

  /** `String(n)` for any integer. */
  function IntToString(n: int): string
  {
    if n < 0 then "-" + Decimal(-n) else Decimal(n)
  }

  function DigitsValue(s: string): nat
    requires forall k :: 0 <= k < |s| ==> IsDigit(s[k])
  {
    if s == [] then 0
    else
      assert IsDigit(s[|s| - 1]);
      10 * DigitsValue(s[..|s| - 1]) + (s[|s| - 1] as int - '0' as int)
  }

  /** Reading a string of decimal digits as a number; anything else is not a
      number. */
  function ParseDecimal(s: string): (r: Option<nat>)
    ensures r.Some? <==> s != [] && forall k :: 0 <= k < |s| ==> IsDigit(s[k])
    ensures r.Some? ==> r.value == DigitsValue(s)
    ensures r.Some? && |s| > 1 ==>
      r.value == 10 * ParseDecimal(s[..|s| - 1]).value + (s[|s| - 1] as int - '0' as int)
  {
    if s != [] && forall k :: 0 <= k < |s| ==> IsDigit(s[k]) then Some(DigitsValue(s)) else None
  }

  /** A leading zero does not change the value of a string of digits. */
  lemma {:induction false} DigitsValueLeadingZero(s: string)
    requires forall k :: 0 <= k < |s| ==> IsDigit(s[k])
    ensures DigitsValue("0" + s) == DigitsValue(s)
    decreases |s|
  {
    var z := "0" + s;
    if s == [] {
      assert z[..|z| - 1] == [];
    } else {
      assert z[..|z| - 1] == "0" + s[..|s| - 1];
      assert z[|z| - 1] == s[|s| - 1];
      DigitsValueLeadingZero(s[..|s| - 1]);
    }
  }

  /** `n` zero digits. */
  function Zeros(n: nat): (r: string)
    ensures |r| == n && forall k :: 0 <= k < n ==> r[k] == '0'
  {
    if n == 0 then [] else "0" + Zeros(n - 1)
  }

  /** One leading zero is read past. */
  lemma ParseZeroPrefix(t: string)
    requires ParseDecimal(t).Some?
    ensures ParseDecimal("0" + t) == ParseDecimal(t)
  {
    var z := "0" + t;
    assert forall k :: 1 <= k < |z| ==> z[k] == t[k - 1];
    assert forall k :: 0 <= k < |z| ==> IsDigit(z[k]);
    DigitsValueLeadingZero(t);
  }

  /** PostgreSQL reads `"007"` as 7: leading zeros are allowed and ignored. */
  lemma {:induction false} ParseLeadingZeros(s: string, zeros: nat)
    requires ParseDecimal(s).Some?
    ensures ParseDecimal(Zeros(zeros) + s) == ParseDecimal(s)
  {
    if zeros > 0 {
      var t := Zeros(zeros - 1) + s;
      ParseLeadingZeros(s, zeros - 1);
      Associate("0", Zeros(zeros - 1), s);
      assert Zeros(zeros) + s == "0" + t;
      ParseZeroPrefix(t);
    } else {
      assert Zeros(zeros) + s == s;
    }
  }


  /** Reading back a rendered number gives the number. */
  lemma {:induction false} DecimalRoundTrip(n: nat)
    ensures ParseDecimal(Decimal(n)) == Some(n)
  {
    var r := Decimal(n);
    if n < 10 {
      assert DigitsValue(r) == 10 * DigitsValue([]) + n by { assert r[..0] == []; }
    } else {
      DecimalRoundTrip(n / 10);
      assert r[..|r| - 1] == Decimal(n / 10);
      assert DigitsValue(r) == 10 * (n / 10) + n % 10;
    }
  }
}
