/** The JavaScript string and array primitives the generators are built from
    (`slice(-k)`, `startsWith`, `trim`, `split`, `join`, `charAt(0).toUpperCase()`
    and `Math.floor(Math.random() * n)`), written out as functions. */
module JsText {

  /** `s.slice(-k)`: the last `k` elements of `s`, or all of `s` when it is shorter.
      JavaScript reads `-0` as `0`, so for `k == 0` the whole of `s` is returned. */
  function Last<T>(s: seq<T>, k: nat): (r: seq<T>)
    ensures 0 < k ==> |r| == (if |s| < k then |s| else k)
    ensures |r| <= |s| && r == s[|s| - |r|..]
    ensures k == 0 ==> r == s
  {
    if k == 0 || |s| <= k then s else s[|s| - k..]
  }

  /** `Math.floor(r * n)` for a draw `r` of `Math.random()`, which lies in [0, 1).
      The index is always in range for a non-empty list; for an empty one it is 0,
      an index past the end. */
  function PickIndex(r: real, n: nat): (i: nat)
    requires 0.0 <= r < 1.0
    ensures n == 0 ==> i == 0
    ensures n > 0 ==> i < n
  {
    ScaledDrawInRange(r, n);
    (r * n as real).Floor
  }

  /** A draw in [0, 1) scaled by n lies in [0, n). */
  lemma ScaledDrawInRange(r: real, n: nat)
    requires 0.0 <= r < 1.0
    ensures 0.0 <= r * n as real
    ensures n > 0 ==> r * n as real < n as real
  {
  }

  /** `s.charAt(0).toUpperCase() + s.slice(1)`, with the case mapping of one
      character left abstract as `upper`. */
  function Capitalize(s: string, upper: char -> char): (r: string)
    ensures |r| == |s|
    ensures s != [] ==> r[0] == upper(s[0]) && r[1..] == s[1..]
  {
    if s == [] then [] else [upper(s[0])] + s[1..]
  }

  /** `s.startsWith(p)` */
  predicate StartsWith(s: string, p: string) {
    |p| <= |s| && s[..|p|] == p
  }

  /** `s.endsWith('.')` */
  predicate EndsWithDot(s: string) {
    |s| > 0 && s[|s| - 1] == '.'
  }

  /** The characters JavaScript's `\s` and `String.prototype.trim` treat as white
      space: the ECMAScript WhiteSpace and LineTerminator code points. */
  predicate IsSpace(c: char) {
    || c == '\t' || c == '\n' || c == '\U{B}' || c == '\U{C}' || c == '\r' || c == ' '
    || c == '\U{A0}' || c == '\U{1680}' || ('\U{2000}' <= c <= '\U{200A}')
    || c == '\U{2028}' || c == '\U{2029}' || c == '\U{202F}' || c == '\U{205F}'
    || c == '\U{3000}' || c == '\U{FEFF}'
  }

  /** `t` holds no white-space character at all. */
  predicate NoWhiteSpace(t: string) {
    forall j | 0 <= j < |t| :: !IsSpace(t[j])
  }

  /** `s` without its leading white space. */
  function TrimStart(s: string): (r: string)
    ensures |r| <= |s|
    ensures s != [] && IsSpace(s[0]) ==> |r| < |s|
  {
    if s != [] && IsSpace(s[0]) then TrimStart(s[1..]) else s
  }

  /** What `TrimStart` keeps is a suffix of `s`. */
  lemma {:induction false} TrimStartSuffix(s: string)
    ensures TrimStart(s) == s[|s| - |TrimStart(s)|..]
    decreases |s|
  {
    if s != [] && IsSpace(s[0]) {
      TrimStartSuffix(s[1..]);
      assert s[1..][|s| - 1 - |TrimStart(s[1..])|..] == s[|s| - |TrimStart(s)|..];
    }
  }

  /** What `TrimStart` removes is white space only. */
  lemma {:induction false} TrimStartRemoved(s: string)
    ensures forall j | 0 <= j < |s| - |TrimStart(s)| :: IsSpace(s[j])
    decreases |s|
  {
    if s != [] && IsSpace(s[0]) {
      TrimStartRemoved(s[1..]);
      forall j | 0 <= j < |s| - |TrimStart(s)| ensures IsSpace(s[j]) {
        if j > 0 {
          assert s[j] == s[1..][j - 1];
        }
      }
    }
  }

  /** What `TrimStart` keeps starts with something other than white space and,
      when `s` ends with something other than white space, is non-empty and ends
      as `s` does. */
  lemma {:induction false} TrimStartEnds(s: string)
    ensures TrimStart(s) != [] ==> !IsSpace(TrimStart(s)[0])
    ensures s != [] && !IsSpace(s[|s| - 1]) ==> TrimStart(s) != [] && TrimStart(s)[|TrimStart(s)| - 1] == s[|s| - 1]
    decreases |s|
  {
    if s != [] && IsSpace(s[0]) {
      TrimStartEnds(s[1..]);
      if !IsSpace(s[|s| - 1]) {
        assert s[1..][|s| - 2] == s[|s| - 1];
      }
    }
  }

  /** `s` without its trailing white space. */
  function TrimEnd(s: string): string {
    if s != [] && IsSpace(s[|s| - 1]) then TrimEnd(s[..|s| - 1]) else s
  }

  /** What `TrimEnd` removes is white space only, and what it keeps is a prefix
      that ends with something else. */
  lemma {:induction false} TrimEndShape(s: string)
    ensures |TrimEnd(s)| <= |s| && TrimEnd(s) == s[..|TrimEnd(s)|]
    ensures forall j | |TrimEnd(s)| <= j < |s| :: IsSpace(s[j])
    ensures TrimEnd(s) != [] ==> !IsSpace(TrimEnd(s)[|TrimEnd(s)| - 1])
    decreases |s|
  {
    if s != [] && IsSpace(s[|s| - 1]) {
      TrimEndShape(s[..|s| - 1]);
    }
  }

  /** `s.trim()` */
  function Trim(s: string): string {
    TrimEnd(TrimStart(s))
  }

  /** Neither end of `s.trim()` is white space, and it is empty exactly when `s`
      is all white space. */
  lemma TrimEnds(s: string)
    ensures |Trim(s)| <= |s|
    ensures Trim(s) != [] ==> !IsSpace(Trim(s)[0]) && !IsSpace(Trim(s)[|Trim(s)| - 1])
    ensures Trim(s) == [] <==> forall j | 0 <= j < |s| :: IsSpace(s[j])
  {
    var x := TrimStart(s);
    TrimStartSuffix(s);
    TrimStartRemoved(s);
    TrimStartEnds(s);
    TrimEndShape(x);
    assert x != [] ==> x[0] == s[|s| - |x|];
  }

  /** The length of the longest prefix of `s` free of white space; when shorter
      than `s`, the character after it is white space. */
  function TokenEnd(s: string): (n: nat)
    ensures n <= |s|
    ensures ' ' !in s[..n]
    ensures n < |s| ==> IsSpace(s[n])
  {
    if s == [] || IsSpace(s[0]) then 0
    else
      var n := 1 + TokenEnd(s[1..]);
      assert s[..n] == [s[0]] + s[1..][..n - 1];
      n
  }

  /** The first piece holds no white space of any kind. */
  lemma {:induction false} TokenEndRun(s: string)
    ensures NoWhiteSpace(s[..TokenEnd(s)])
    decreases |s|
  {
    if s != [] && !IsSpace(s[0]) {
      TokenEndRun(s[1..]);
      assert s[..TokenEnd(s)] == [s[0]] + s[1..][..TokenEnd(s[1..])];
    }
  }

  /** A white-space-free token followed by nothing or by white space ends the
      first piece. */
  lemma {:induction false} TokenEndOf(t: string, x: string)
    requires NoWhiteSpace(t)
    requires x == [] || IsSpace(x[0])
    ensures TokenEnd(t + x) == |t|
  {
    if t == [] {
      assert t + x == x;
    } else {
      assert (t + x)[1..] == t[1..] + x;
      TokenEndOf(t[1..], x);
    }
  }

  /** `s.split(/\s+/)`: the pieces of `s` between maximal runs of white space.
      There is always at least one piece (`"".split(/\s+/)` is `[""]`), and no
      piece holds a space. */
  function SplitWs(s: string): (r: seq<string>)
    ensures |r| >= 1
    ensures forall t | t in r :: ' ' !in t
    decreases |s|
  {
    var n := TokenEnd(s);
    if n == |s| then
      assert s[..n] == s;
      [s]
    else [s[..n]] + SplitWs(TrimStart(s[n..]))
  }

  /** No piece of `s.split(/\s+/)` holds white space of any kind; the empty
      string gives the one empty piece; and when neither end of `s` is white
      space (as after `trim()`) no piece is empty. */
  lemma SplitWsPieces(s: string)
    ensures forall t | t in SplitWs(s) :: NoWhiteSpace(t)
    ensures s == [] ==> SplitWs(s) == [""]
    ensures s != [] && !IsSpace(s[0]) && !IsSpace(s[|s| - 1]) ==> forall t | t in SplitWs(s) :: t != []
  {
    SplitWsNoWhiteSpace(s);
    if s != [] && !IsSpace(s[0]) && !IsSpace(s[|s| - 1]) {
      SplitWsNonEmpty(s);
    }
  }

  /** No piece of `SplitWs(s)` holds white space. */
  lemma {:induction false} SplitWsNoWhiteSpace(s: string)
    ensures forall t | t in SplitWs(s) :: NoWhiteSpace(t)
    decreases |s|
  {
    var n := TokenEnd(s);
    TokenEndRun(s);
    if n == |s| {
      assert s[..n] == s;
    } else {
      var rest := TrimStart(s[n..]);
      SplitWsNoWhiteSpace(rest);
      assert SplitWs(s) == [s[..n]] + SplitWs(rest);
    }
  }

  /** When neither end of `s` is white space, no piece of `SplitWs(s)` is empty. */
  lemma {:induction false} SplitWsNonEmpty(s: string)
    requires s != [] && !IsSpace(s[0]) && !IsSpace(s[|s| - 1])
    ensures forall t | t in SplitWs(s) :: t != []
    decreases |s|
  {
    var n := TokenEnd(s);
    if n == |s| {
      assert s[..n] == s;
    } else {
      var rest := TrimStart(s[n..]);
      assert rest != [] && !IsSpace(rest[0]) && !IsSpace(rest[|rest| - 1]) by {
        TrimStartEnds(s[n..]);
        assert s[n..][|s| - n - 1] == s[|s| - 1];
      }
      SplitWsNonEmpty(rest);
      assert SplitWs(s) == [s[..n]] + SplitWs(rest);
    }
  }

  /** A white-space-free token is a single piece. */
  lemma SplitWsToken(t: string)
    requires NoWhiteSpace(t)
    ensures SplitWs(t) == [t]
  {
    TokenEndOf(t, []);
    assert t + [] == t;
  }

  /** A white-space-free token, one space and a text that starts with no white
      space split into the token followed by the pieces of the text. */
  lemma SplitWsCons(t: string, rest: string)
    requires t != [] && NoWhiteSpace(t)
    requires rest != [] && !IsSpace(rest[0])
    ensures SplitWs(t + " " + rest) == [t] + SplitWs(rest)
  {
    var s := t + " " + rest;
    TokenEndOf(t, " " + rest);
    assert s == t + (" " + rest);
    assert s[..|t|] == t;
    assert s[|t|..] == " " + rest;
    assert TrimStart(" " + rest) == rest by {
      assert (" " + rest)[1..] == rest;
      assert TrimStart(rest) == rest;
    }
  }

  /** Splitting on white space undoes a join of non-empty white-space-free
      tokens: the two form a round trip. */
  lemma {:induction false} SplitWsJoin(toks: seq<string>)
    requires |toks| >= 1
    requires forall i | 0 <= i < |toks| :: toks[i] != [] && NoWhiteSpace(toks[i])
    ensures SplitWs(Join(toks)) == toks
    decreases |toks|
  {
    if |toks| == 1 {
      SplitWsToken(toks[0]);
    } else {
      var rest := Join(toks[1..]);
      assert Join(toks) == toks[0] + " " + rest;
      assert SplitWs(Join(toks)) == [toks[0]] + SplitWs(rest) by {
        assert toks[1..][0] == toks[1];
        assert rest[0] == toks[1][0];
        SplitWsCons(toks[0], rest);
      }
      assert SplitWs(rest) == toks[1..] by {
        SplitWsJoin(toks[1..]);
      }
      assert [toks[0]] + toks[1..] == toks;
    }
  }

  /** `toks.join(' ')` */
  function Join(toks: seq<string>): string {
    if toks == [] then ""
    else if |toks| == 1 then toks[0]
    else toks[0] + " " + Join(toks[1..])
  }

  /** The join of non-empty tokens begins with the first token's first character
      and ends with the last token's last character. */
  lemma {:induction false} JoinEnds(toks: seq<string>)
    requires |toks| >= 1
    requires forall i | 0 <= i < |toks| :: toks[i] != []
    ensures Join(toks) != []
    ensures Join(toks)[0] == toks[0][0]
    ensures Join(toks)[|Join(toks)| - 1] == toks[|toks| - 1][|toks[|toks| - 1]| - 1]
    decreases |toks|
  {
    if |toks| > 1 {
      JoinEnds(toks[1..]);
      assert toks[1..][|toks| - 2] == toks[|toks| - 1];
    }
  }

  /** `s.split(' ')`: the pieces between single spaces, empty pieces included. */
  function SplitSpace(s: string): (r: seq<string>)
    ensures |r| >= 1
  {
    if s == [] then [""]
    else
      var rest := SplitSpace(s[1..]);
      if s[0] == ' ' then [""] + rest else [[s[0]] + rest[0]] + rest[1..]
  }

  /** Splitting on single spaces undoes any join. */
  lemma {:induction false} JoinSplitSpace(s: string)
    ensures Join(SplitSpace(s)) == s
  {
    if s != [] {
      JoinSplitSpace(s[1..]);
      var rest := SplitSpace(s[1..]);
      if s[0] == ' ' {
        assert ([""] + rest)[1..] == rest;
      } else {
        var r := [[s[0]] + rest[0]] + rest[1..];
        if |rest| > 1 {
          assert r[1..] == rest[1..];
          assert Join(rest) == rest[0] + " " + Join(rest[1..]);
        }
        assert s == [s[0]] + s[1..];
      }
    }
  }

  /** A string free of spaces is one piece, and the first space ends a piece. */
  lemma {:induction false} SplitSpaceAfterToken(t: string, rest: string)
    requires ' ' !in t
    ensures SplitSpace(t) == [t]
    ensures SplitSpace(t + " " + rest) == [t] + SplitSpace(rest)
  {
    if t == [] {
      assert ("" + " " + rest)[1..] == rest;
    } else {
      SplitSpaceAfterToken(t[1..], rest);
      assert (t + " " + rest)[1..] == t[1..] + " " + rest;
      assert [t[0]] + t[1..] == t;
    }
  }

  /** Joining tokens that hold no space undoes the split: the two form a round trip
      on every non-empty token list. */
  lemma {:induction false} SplitSpaceJoin(toks: seq<string>)
    requires |toks| >= 1
    requires forall t | t in toks :: ' ' !in t
    ensures SplitSpace(Join(toks)) == toks
  {
    SplitSpaceAfterToken(toks[0], "");
    if |toks| > 1 {
      SplitSpaceJoin(toks[1..]);
      SplitSpaceAfterToken(toks[0], Join(toks[1..]));
      assert [toks[0]] + toks[1..] == toks;
    }
  }

  /** `s` with every maximal run of white space replaced by one space. */
  function Collapse(s: string): (r: string)
    ensures |r| <= |s|
    decreases |s|
  {
    if s == [] then []
    else if IsSpace(s[0]) then " " + Collapse(TrimStart(s))
    else [s[0]] + Collapse(s[1..])
  }

  /** The only white space left by `Collapse` is single spaces: every white-space
      character is ' ', and none is followed by another. */
  lemma {:induction false} CollapseShape(s: string)
    ensures forall i | 0 <= i < |Collapse(s)| :: IsSpace(Collapse(s)[i]) ==> Collapse(s)[i] == ' '
    ensures forall i | 0 <= i < |Collapse(s)| - 1 :: Collapse(s)[i] == ' ' ==> Collapse(s)[i + 1] != ' '
    decreases |s|
  {
    if s != [] {
      if IsSpace(s[0]) {
        var rest := TrimStart(s);
        CollapseShape(rest);
        TrimStartEnds(s);
        assert Collapse(rest) != [] ==> Collapse(rest)[0] == rest[0];
      } else {
        CollapseShape(s[1..]);
      }
    }
  }

  /** A string with no white space other than single spaces is left alone. */
  lemma {:induction false} CollapseKeeps(s: string)
    requires forall i | 0 <= i < |s| :: IsSpace(s[i]) ==> s[i] == ' '
    requires forall i | 0 <= i < |s| - 1 :: s[i] == ' ' ==> s[i + 1] != ' '
    ensures Collapse(s) == s
    decreases |s|
  {
    if s != [] {
      if IsSpace(s[0]) {
        assert TrimStart(s) == s[1..] by {
          assert s[1..] == [] || !IsSpace(s[1..][0]);
        }
      }
      CollapseKeeps(s[1..]);
      assert s == [s[0]] + s[1..];
    }
  }

  /** A white-space-free prefix passes through `Collapse` unchanged. */
  lemma {:induction false} CollapseToken(t: string, x: string)
    requires NoWhiteSpace(t)
    ensures Collapse(t + x) == t + Collapse(x)
  {
    if t == [] {
      assert t + x == x;
    } else {
      assert (t + x)[0] == t[0] && !IsSpace(t[0]);
      assert (t + x)[1..] == t[1..] + x;
      CollapseToken(t[1..], x);
      assert [t[0]] + (t[1..] + Collapse(x)) == t + Collapse(x);
    }
  }

  /** `s.split(/\s+/)` is `s` with each run of white space collapsed to one space,
      then split on single spaces. This fixes the pieces for every string: a run
      of several spaces, tabs or line breaks separates two pieces as one space
      does, and leading or trailing white space gives an empty first or last
      piece. */
  lemma {:induction false} SplitWsCollapse(s: string)
    ensures SplitWs(s) == SplitSpace(Collapse(s))
    decreases |s|
  {
    var n := TokenEnd(s);
    TokenEndRun(s);
    var t := s[..n];
    assert s == t + s[n..];
    CollapseToken(t, s[n..]);
    if n == |s| {
      assert s[n..] == [];
      assert Collapse(s) == t + [];
      assert t + [] == t == s;
      SplitSpaceAfterToken(t, "");
      assert SplitWs(s) == [t];
    } else {
      var rest := TrimStart(s[n..]);
      assert Collapse(s[n..]) == " " + Collapse(rest);
      assert Collapse(s) == t + " " + Collapse(rest);
      SplitSpaceAfterToken(t, Collapse(rest));
      SplitWsCollapse(rest);
    }
  }

  /** The join of two non-empty lists is the two joins with one space between. */
  lemma {:induction false} JoinAppend(a: seq<string>, b: seq<string>)
    requires a != [] && b != []
    ensures Join(a + b) == Join(a) + " " + Join(b)
  {
    if |a| == 1 {
      assert (a + b)[1..] == b;
    } else {
      JoinAppend(a[1..], b);
      assert (a + b)[1..] == a[1..] + b;
    }
  }

  /** A list that extends a non-empty list joins to a string that begins with
      the shorter list's join. */
  lemma JoinExtends(init: seq<string>, toks: seq<string>)
    requires init != [] && |init| <= |toks| && toks[..|init|] == init
    ensures StartsWith(Join(toks), Join(init))
  {
    if |toks| > |init| {
      var rest := toks[|init|..];
      assert toks == init + rest;
      JoinAppend(init, rest);
    } else {
      assert toks == init;
    }
  }
}
