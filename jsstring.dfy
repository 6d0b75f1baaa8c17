/**
 * The JavaScript string and array primitives the code generator is built from,
 * with the semantics ECMAScript gives them for the arguments the generator
 * passes: `split` on a one-character separator, `join`, `replace` with a
 * string pattern (first occurrence only), the search for a first occurrence
 * that `split` and `replace` both perform, `trim`, `map`, template
 * interpolation of a possibly `undefined` value, and the generator's own
 * `capitalize` helper.
 */
module JsString {
  import opened Wrappers

  /** No character of `s` is `c`. */
  predicate Lacks(s: string, c: char) {
    forall k :: 0 <= k < |s| ==> s[k] != c
  }

  /** A concatenation lacks `c` exactly when both parts do. */
  lemma LacksAppend(a: string, b: string, c: char)
    ensures Lacks(a + b, c) <==> Lacks(a, c) && Lacks(b, c)
  {
    if Lacks(a, c) && Lacks(b, c) {
      forall k | 0 <= k < |a + b| ensures (a + b)[k] != c {
        if k < |a| { assert (a + b)[k] == a[k]; } else { assert (a + b)[k] == b[k - |a|]; }
      }
    }
    if Lacks(a + b, c) {
      forall k | 0 <= k < |a| ensures a[k] != c { assert (a + b)[k] == a[k]; }
      forall k | 0 <= k < |b| ensures b[k] != c { assert (a + b)[|a| + k] == b[k]; }
    }
  }

  /** A slice of a string that lacks `c` lacks `c`. */
  lemma LacksSlice(s: string, i: nat, j: nat, c: char)
    requires i <= j <= |s| && Lacks(s, c)
    ensures Lacks(s[i..j], c)
  {
    forall k | 0 <= k < j - i ensures s[i..j][k] != c {
      assert s[i..j][k] == s[i + k];
    }
  }

  /** Whether every character of `s` satisfies `IsWhiteSpace`. */
  predicate AllWhiteSpace(s: string) {
    forall k :: 0 <= k < |s| ==> IsWhiteSpace(s[k])
  }

  /** Neither end of `s` is white space: what `trim` leaves behind. */
  predicate Trimmed(s: string) {
    s == [] || (!IsWhiteSpace(s[0]) && !IsWhiteSpace(s[|s| - 1]))
  }

  /**
   * The characters `String.prototype.trim` removes: the WhiteSpace code points
   * (tab, vertical tab, form feed, space, no-break space, the byte order mark
   * and the space separators of category Zs) and the LineTerminator code
   * points (line feed, carriage return, line and paragraph separators).
   */
  predicate IsWhiteSpace(c: char) {
    ('\t' <= c <= '\r') || c == ' ' || c == '\U{00A0}' || c == '\U{1680}' || ('\U{2000}' <= c <= '\U{200A}')
    || c == '\U{2028}' || c == '\U{2029}' || c == '\U{202F}' || c == '\U{205F}' || c == '\U{3000}' || c == '\U{FEFF}'
  }

  /** The search `split` and `replace` perform: the position of the first `c` in `s`, `None` when there is none. */
  function IndexOf(s: string, c: char): (r: Option<nat>)
    ensures r.None? <==> Lacks(s, c)
    ensures r.Some? ==> r.value < |s| && s[r.value] == c && forall j :: 0 <= j < r.value ==> s[j] != c
  {
    if s == [] then None
    else if s[0] == c then Some(0)
    else
      match IndexOf(s[1..], c)
      case None => None
      case Some(i) => Some(i + 1)
  }

  /** The first `c` of `s` is at `|a|` whenever `s` is `a`, then `c`, then anything. */
  lemma IndexOfAt(a: string, c: char, b: string)
    requires Lacks(a, c)
    ensures IndexOf(a + [c] + b, c) == Some(|a|)
  {
    var s := a + [c] + b;
    assert s[|a|] == c;
    assert forall k :: 0 <= k < |a| ==> s[k] == a[k];
  }

  /** `parts.join(sep)`: the parts in order with `sep` between neighbours. */
  function Join(parts: seq<string>, sep: string): (r: string)
  {
    if |parts| == 0 then ""
    else if |parts| == 1 then parts[0]
    else parts[0] + sep + Join(parts[1..], sep)
  }

  /** Joining one more part at the end adds the separator and that part. */
  lemma {:induction false} JoinAppend(parts: seq<string>, x: string, sep: string)
    requires |parts| >= 1
    ensures Join(parts + [x], sep) == Join(parts, sep) + sep + x
    decreases |parts|
  {
    if |parts| == 1 {
      assert (parts + [x])[1..] == [x];
    } else {
      assert (parts + [x])[1..] == parts[1..] + [x];
      JoinAppend(parts[1..], x, sep);
    }
  }

  /** A join of parts that all lack `c`, with a separator that lacks `c`, lacks `c`. */
  lemma {:induction false} JoinLacks(parts: seq<string>, sep: string, c: char)
    requires Lacks(sep, c)
    requires forall k :: 0 <= k < |parts| ==> Lacks(parts[k], c)
    ensures Lacks(Join(parts, sep), c)
    decreases |parts|
  {
    if |parts| > 1 {
      JoinLacks(parts[1..], sep, c);
      LacksAppend(parts[0], sep, c);
      LacksAppend(parts[0] + sep, Join(parts[1..], sep), c);
    }
  }

  /**
   * `s.split(c)` for a one-character separator: the maximal runs of `s` free
   * of `c`, including empty ones; never empty itself.
   */
  function Split(s: string, c: char): (r: seq<string>)
    ensures |r| >= 1
    decreases |s|
  {
    match IndexOf(s, c)
    case None => [s]
    case Some(i) => [s[..i]] + Split(s[i + 1..], c)
  }

  /** A string holding `c` is some `c`-free text, the first `c`, and the rest. */
  lemma FirstOccurrence(s: string, c: char) returns (a: string, b: string)
    requires !Lacks(s, c)
    ensures s == a + [c] + b && Lacks(a, c)
  {
    var i := IndexOf(s, c).value;
    a, b := s[..i], s[i + 1..];
    assert s == a + [c] + b;
  }

  /** Without a separator there is one piece: the whole string. */
  lemma SplitWithout(s: string, c: char)
    requires Lacks(s, c)
    ensures Split(s, c) == [s]
  {
  }

  /** The first piece of a split is the text before the first separator. */
  lemma SplitAt(a: string, c: char, b: string)
    requires Lacks(a, c)
    ensures Split(a + [c] + b, c) == [a] + Split(b, c)
  {
    var s := a + [c] + b;
    IndexOfAt(a, c, b);
    assert s[..|a|] == a;
    assert s[|a| + 1..] == b;
  }

  /** There is more than one piece exactly when `s` holds `c`, and no piece holds `c`. */
  lemma {:induction false} SplitPieces(s: string, c: char)
    ensures |Split(s, c)| == 1 <==> Lacks(s, c)
    ensures forall k :: 0 <= k < |Split(s, c)| ==> Lacks(Split(s, c)[k], c)
    decreases |s|
  {
    if Lacks(s, c) {
      SplitWithout(s, c);
    } else {
      var a, b := FirstOccurrence(s, c);
      SplitAt(a, c, b);
      SplitPieces(b, c);
    }
  }

  /** Joining the pieces of a split with the separator gives the string back. */
  lemma {:induction false} JoinSplit(s: string, c: char)
    ensures Join(Split(s, c), [c]) == s
    decreases |s|
  {
    if Lacks(s, c) {
      assert Split(s, c) == [s];
    } else {
      var a, b := FirstOccurrence(s, c);
      SplitAt(a, c, b);
      JoinSplit(b, c);
      var rest := Split(b, c);
      assert Split(s, c) == [a] + rest;
      assert ([a] + rest)[1..] == rest;
    }
  }

  /**
   * The first piece is the longest prefix free of `c`: it is followed by a
   * `c` or by the end of `s`.
   */
  lemma SplitFirstPiece(s: string, c: char)
    ensures var p := Split(s, c)[0];
      |p| <= |s| && s[..|p|] == p && Lacks(p, c) && (|p| == |s| || s[|p|] == c)
  {
    if !Lacks(s, c) {
      var a, b := FirstOccurrence(s, c);
      SplitAt(a, c, b);
      assert s[..|a|] == a;
    }
  }

  /** Splitting at a separator distributes over the text on either side of one. */
  lemma {:induction false} SplitConcat(a: string, c: char, b: string)
    ensures Split(a + [c] + b, c) == Split(a, c) + Split(b, c)
    decreases |a|
  {
    if Lacks(a, c) {
      SplitAt(a, c, b);
      SplitWithout(a, c);
    } else {
      var a1, a2 := FirstOccurrence(a, c);
      SplitConcat(a2, c, b);
      SplitConcatStep(a1, a2, c, b);
    }
  }

  /** The inductive step of `SplitConcat`: one more piece in front. */
  lemma SplitConcatStep(a1: string, a2: string, c: char, b: string)
    requires Lacks(a1, c)
    requires Split(a2 + [c] + b, c) == Split(a2, c) + Split(b, c)
    ensures Split(a1 + [c] + a2 + [c] + b, c) == Split(a1 + [c] + a2, c) + Split(b, c)
  {
    var x, y := Split(a2, c), Split(b, c);
    assert Split(a1 + [c] + a2 + [c] + b, c) == [a1] + (x + y) by {
      Regroup(a1, [c], a2, [c], b);
      SplitAt(a1, c, a2 + [c] + b);
    }
    assert Split(a1 + [c] + a2, c) == [a1] + x by {
      SplitAt(a1, c, a2);
    }
    assert [a1] + (x + y) == [a1] + x + y;
  }

  /** Concatenation of five strings, regrouped. */
  lemma Regroup(p: string, q: string, r: string, s: string, t: string)
    ensures p + q + r + s + t == p + q + (r + s + t)
  {
  }

  /** Joining parts free of `c` with `c` and splitting on `c` gives the parts back. */
  lemma {:induction false} SplitJoin(parts: seq<string>, c: char)
    requires |parts| >= 1
    requires forall k :: 0 <= k < |parts| ==> Lacks(parts[k], c)
    ensures Split(Join(parts, [c]), c) == parts
    decreases |parts|
  {
    if |parts| == 1 {
      assert Split(parts[0], c) == [parts[0]];
    } else {
      SplitJoin(parts[1..], c);
      SplitAt(parts[0], c, Join(parts[1..], [c]));
    }
  }

  /** `s.replace(c, "")` with a one-character string pattern: only the first `c` goes. */
  function RemoveFirst(s: string, c: char): (r: string)
    ensures Lacks(s, c) ==> r == s
    ensures !Lacks(s, c) ==> |r| == |s| - 1
  {
    match IndexOf(s, c)
    case None => s
    case Some(i) => s[..i] + s[i + 1..]
  }

  /** Whatever follows the first `c` is kept, including further copies of `c`. */
  lemma RemoveFirstAt(a: string, c: char, b: string)
    requires Lacks(a, c)
    ensures RemoveFirst(a + [c] + b, c) == a + b
  {
    IndexOfAt(a, c, b);
    var s := a + [c] + b;
    assert s[..|a|] == a && s[|a| + 1..] == b;
  }

  /** `s.trimStart()`: `s` without its leading white space. */
  function TrimStart(s: string): (r: string)
  {
    if s != [] && IsWhiteSpace(s[0]) then TrimStart(s[1..]) else s
  }

  /** `trimStart` leaves a suffix that does not start with white space, and cuts off only white space. */
  lemma {:induction false} TrimStartSpec(s: string)
    ensures var r := TrimStart(s);
      |r| <= |s| && r == s[|s| - |r|..] && AllWhiteSpace(s[..|s| - |r|]) && (r == [] || !IsWhiteSpace(r[0]))
    decreases |s|
  {
    if s != [] && IsWhiteSpace(s[0]) {
      TrimStartSpec(s[1..]);
      var r := TrimStart(s[1..]);
      assert s[..|s| - |r|] == [s[0]] + s[1..][..|s| - 1 - |r|];
    }
  }

  /** `s.trimEnd()`: `s` without its trailing white space. */
  function TrimEnd(s: string): (r: string)
  {
    if s != [] && IsWhiteSpace(s[|s| - 1]) then TrimEnd(s[..|s| - 1]) else s
  }

  /** `trimEnd` leaves a prefix that does not end with white space, and cuts off only white space. */
  lemma {:induction false} TrimEndSpec(s: string)
    ensures var r := TrimEnd(s);
      |r| <= |s| && r == s[..|r|] && AllWhiteSpace(s[|r|..]) && (r == [] || !IsWhiteSpace(r[|r| - 1]))
    decreases |s|
  {
    if s != [] && IsWhiteSpace(s[|s| - 1]) {
      TrimEndSpec(s[..|s| - 1]);
      var r := TrimEnd(s[..|s| - 1]);
      assert s[|r|..] == s[..|s| - 1][|r|..] + [s[|s| - 1]];
    }
  }

  /**
   * `s.trim()`: `s` with white space removed at both ends; empty exactly
   * when `s` is all white space.
   */
  function Trim(s: string): (r: string)
    ensures Trimmed(r)
    ensures r == [] <==> AllWhiteSpace(s)
  {
    TrimStartSpec(s);
    TrimEndSpec(TrimStart(s));
    TrimBothEnds(s, TrimStart(s), TrimEnd(TrimStart(s)));
    TrimEnd(TrimStart(s))
  }

  /**
   * What is left of `s` once a white-space prefix is cut off leaving `t`, and
   * then a white-space suffix is cut off `t` leaving `r`.
   */
  lemma TrimBothEnds(s: string, t: string, r: string)
    requires |t| <= |s| && t == s[|s| - |t|..] && AllWhiteSpace(s[..|s| - |t|])
    requires t == [] || !IsWhiteSpace(t[0])
    requires |r| <= |t| && r == t[..|r|] && AllWhiteSpace(t[|r|..])
    requires r == [] || !IsWhiteSpace(r[|r| - 1])
    ensures Trimmed(r)
    ensures r == [] <==> AllWhiteSpace(s)
    ensures |s| - |t| + |r| <= |s| && r == s[|s| - |t|..|s| - |t| + |r|]
    ensures AllWhiteSpace(s[..|s| - |t|]) && AllWhiteSpace(s[|s| - |t| + |r|..])
  {
    var i := |s| - |t|;
    assert s == s[..i] + t;
    assert t == r + t[|r|..];
    assert s[i..i + |r|] == r;
    assert s[i + |r|..] == t[|r|..];
    AllWhiteSpaceAppend(s[..i], t);
    AllWhiteSpaceAppend(r, t[|r|..]);
    if r != [] {
      assert r[0] == t[0];
    }
  }

  /** A concatenation is all white space exactly when both parts are. */
  lemma AllWhiteSpaceAppend(a: string, b: string)
    ensures AllWhiteSpace(a + b) <==> AllWhiteSpace(a) && AllWhiteSpace(b)
  {
    if AllWhiteSpace(a) && AllWhiteSpace(b) {
      forall k | 0 <= k < |a + b| ensures IsWhiteSpace((a + b)[k]) {
        if k < |a| { assert (a + b)[k] == a[k]; } else { assert (a + b)[k] == b[k - |a|]; }
      }
    }
    if AllWhiteSpace(a + b) {
      forall k | 0 <= k < |a| ensures IsWhiteSpace(a[k]) { assert (a + b)[k] == a[k]; }
      forall k | 0 <= k < |b| ensures IsWhiteSpace(b[k]) { assert (a + b)[|a| + k] == b[k]; }
    }
  }

  /** `trimStart` removes exactly a white-space prefix in front of a non-white-space character. */
  lemma {:induction false} TrimStartPrefix(pre: string, t: string)
    requires AllWhiteSpace(pre)
    requires t == [] || !IsWhiteSpace(t[0])
    ensures TrimStart(pre + t) == t
    decreases |pre|
  {
    if pre != [] {
      assert (pre + t)[0] == pre[0];
      assert (pre + t)[1..] == pre[1..] + t;
      TrimStartPrefix(pre[1..], t);
    } else {
      assert pre + t == t;
    }
  }

  /** `trimEnd` removes exactly a white-space suffix behind a non-white-space character. */
  lemma {:induction false} TrimEndSuffix(t: string, post: string)
    requires AllWhiteSpace(post)
    requires t == [] || !IsWhiteSpace(t[|t| - 1])
    ensures TrimEnd(t + post) == t
    decreases |post|
  {
    if post != [] {
      var s := t + post;
      assert s[|s| - 1] == post[|post| - 1];
      assert s[..|s| - 1] == t + post[..|post| - 1];
      TrimEndSuffix(t, post[..|post| - 1]);
    } else {
      assert t + post == t;
    }
  }

  /** White space around a trimmed string is all that `trim` removes. */
  lemma TrimAround(pre: string, s: string, post: string)
    requires AllWhiteSpace(pre) && AllWhiteSpace(post) && Trimmed(s)
    ensures Trim(pre + s + post) == s
  {
    assert pre + s + post == pre + (s + post);
    if s == [] {
      assert s + post == post;
      AllWhiteSpaceAppend(pre, post);
      assert Trim(pre + post) == [];
    } else {
      assert (s + post)[0] == s[0];
      TrimStartPrefix(pre, s + post);
      TrimEndSuffix(s, post);
    }
  }

  /** A string that is already trimmed is left as it is. */
  lemma TrimTrimmed(s: string)
    requires Trimmed(s)
    ensures Trim(s) == s
  {
  }

  /** Trimming twice is trimming once. */
  lemma TrimIdempotent(s: string)
    ensures Trim(Trim(s)) == Trim(s)
  {
    TrimTrimmed(Trim(s));
  }

  /** One leading space before a trimmed string is the only thing `trim` removes. */
  lemma TrimLeadingSpace(s: string)
    requires Trimmed(s)
    ensures Trim(" " + s) == s
  {
    var padded := " " + s;
    assert padded[0] == ' ' && padded[1..] == s;
    assert TrimStart(s) == s;
    assert TrimStart(padded) == s;
    assert TrimEnd(s) == s;
  }

  /** Upper-casing of one character, restricted to ASCII letters. */
  function ToUpperAscii(ch: char): (u: char)
    ensures 'a' <= ch <= 'z' ==> 'A' <= u <= 'Z' && u as int + 32 == ch as int
    ensures !('a' <= ch <= 'z') ==> u == ch
  {
    if 'a' <= ch <= 'z' then (ch as int - 32) as char else ch
  }

  /**
   * The generator's `capitalize`: `str.charAt(0).toUpperCase() + str.slice(1)`.
   * The length is kept, only the first character changes, and the empty string
   * maps to itself.
   */
  function Capitalize(s: string): (r: string)
    ensures |r| == |s|
    ensures s == [] ==> r == []
    ensures s != [] ==> r[0] == ToUpperAscii(s[0]) && r[1..] == s[1..]
  {
    if s == [] then [] else [ToUpperAscii(s[0])] + s[1..]
  }

  /** Template-literal interpolation `${v}` of a string that may be `undefined`. */
  function Render(v: Option<string>): (r: string)
    ensures v.None? ==> r == "undefined"
    ensures v.Some? ==> r == v.value
  {
    match v
    case None => "undefined"
    case Some(s) => s
  }

  /** `xs.map(f)`: one result per element, in the same order. */
  function MapSeq<A, B>(f: A -> B, xs: seq<A>): (r: seq<B>)
    ensures |r| == |xs|
    ensures forall i :: 0 <= i < |xs| ==> r[i] == f(xs[i])
  {
    if xs == [] then [] else [f(xs[0])] + MapSeq(f, xs[1..])
  }

  /** Mapping one more element at the end adds its image at the end. */
  lemma MapSeqAppend<A, B>(f: A -> B, xs: seq<A>, x: A)
    ensures MapSeq(f, xs + [x]) == MapSeq(f, xs) + [f(x)]
  {
  }

  /** `xs.map(f).join(sep)`. */
  function MapJoin<A>(f: A -> string, xs: seq<A>, sep: string): (r: string)
  {
    Join(MapSeq(f, xs), sep)
  }

  /** An empty list joins to the empty string. */
  lemma MapJoinEmpty<A>(f: A -> string, sep: string)
    ensures MapJoin(f, [], sep) == ""
  {
  }

  /** A one-element list joins to its one image, without a separator. */
  lemma MapJoinSingle<A>(f: A -> string, x: A, sep: string)
    ensures MapJoin(f, [x], sep) == f(x)
  {
    assert MapSeq(f, [x]) == [f(x)];
  }

  /** One more element at the end adds the separator and its image at the end, so order is kept. */
  lemma MapJoinAppend<A>(f: A -> string, xs: seq<A>, x: A, sep: string)
    requires |xs| >= 1
    ensures MapJoin(f, xs + [x], sep) == MapJoin(f, xs, sep) + sep + f(x)
  {
    MapSeqAppend(f, xs, x);
    JoinAppend(MapSeq(f, xs), f(x), sep);
  }

  /**
   * When no image holds `c`, joining with `c` and splitting on `c` recovers
   * the images one by one, in order.
   */
  lemma MapJoinPieces<A>(f: A -> string, xs: seq<A>, c: char)
    requires |xs| >= 1
    requires forall k :: 0 <= k < |xs| ==> Lacks(f(xs[k]), c)
    ensures Split(MapJoin(f, xs, [c]), c) == MapSeq(f, xs)
  {
    SplitJoin(MapSeq(f, xs), c);
  }

  /** `texts` appended one after the other to an initially empty string, as a `+=` loop does. */
  function ConcatAll(texts: seq<string>): (r: string)
  {
    if texts == [] then "" else ConcatAll(texts[..|texts| - 1]) + texts[|texts| - 1]
  }

  /** The first `|texts|` texts are all of them. */
  lemma ConcatAllWhole(texts: seq<string>, n: nat)
    requires n == |texts|
    ensures ConcatAll(texts[..n]) == ConcatAll(texts)
  {
    assert texts[..n] == texts;
  }

  /** One more text appended to the accumulator. */
  lemma ConcatAllStep(texts: seq<string>, i: nat)
    requires i < |texts|
    ensures ConcatAll(texts[..i + 1]) == ConcatAll(texts[..i]) + texts[i]
  {
    assert texts[..i + 1][..i] == texts[..i];
  }

  /** Concatenating two runs of texts is concatenating their concatenations, in that order. */
  lemma {:induction false} ConcatAllAppend(xs: seq<string>, ys: seq<string>)
    ensures ConcatAll(xs + ys) == ConcatAll(xs) + ConcatAll(ys)
    decreases |ys|
  {
    if ys == [] {
      assert xs + ys == xs;
    } else {
      var last := ys[|ys| - 1];
      var init := ys[..|ys| - 1];
      assert (xs + ys)[..|xs + ys| - 1] == xs + init;
      ConcatAllAppend(xs, init);
    }
  }

  /** The concatenation is all white space exactly when every text is. */
  lemma {:induction false} ConcatAllWhiteSpace(texts: seq<string>)
    ensures AllWhiteSpace(ConcatAll(texts)) <==> forall k :: 0 <= k < |texts| ==> AllWhiteSpace(texts[k])
    decreases |texts|
  {
    if texts != [] {
      var init := texts[..|texts| - 1];
      ConcatAllWhiteSpace(init);
      AllWhiteSpaceAppend(ConcatAll(init), texts[|texts| - 1]);
      assert forall k :: 0 <= k < |init| ==> init[k] == texts[k];
    }
  }
}
