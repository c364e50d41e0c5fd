/** Character classes and string operations shared by the name parsers of
    media_cleaner.py: the pieces of Python's `str` and `re` behaviour that the
    parsers rely on, written out over `seq<char>`. */
module Text {

  datatype Option<T> = None | Some(value: T)

  /** The characters for which Python's `str.isspace()` holds; this is also
      the set the `\s` class of a `str` pattern matches and the set that a
      bare `strip()` removes. */
  predicate IsSpace(c: char) {
    || c == ' '
    || ('\t' <= c <= '\r')
    || ('\U{1C}' <= c <= '\U{1F}')
    || c == '\U{85}' || c == '\U{A0}' || c == '\U{1680}'
    || ('\U{2000}' <= c <= '\U{200A}')
    || c == '\U{2028}' || c == '\U{2029}' || c == '\U{202F}' || c == '\U{205F}'
    || c == '\U{3000}'
  }

  predicate IsDigit(c: char) {
    '0' <= c <= '9'
  }

  predicate IsUpper(c: char) {
    'A' <= c <= 'Z'
  }

  /** `str.lower()` restricted to ASCII letters. */
  function Lower(c: char): (r: char)
    ensures !IsUpper(r)
    ensures IsUpper(c) <==> r != c
  {
    if IsUpper(c) then (c as int + 32) as char else c
  }

  function LowerStr(s: string): (r: string)
    ensures |r| == |s|
    ensures forall i :: 0 <= i < |s| ==> r[i] == Lower(s[i])
  {
    seq(|s|, i requires 0 <= i < |s| => Lower(s[i]))
  }

  /** No ASCII upper-case letter occurs in `s`. */
  predicate IsLowerCase(s: string) {
    forall i :: 0 <= i < |s| ==> !IsUpper(s[i])
  }

  lemma LowerStrSlice(s: string, a: nat, b: nat)
    requires a <= b <= |s|
    ensures LowerStr(s[a..b]) == LowerStr(s)[a..b]
  {
  }

  /** `t` occurs in `s` starting at index `i`. */
  predicate OccursAt(s: string, t: string, i: int) {
    0 <= i && i + |t| <= |s| && s[i..i + |t|] == t
  }

  /** Python's `t in s`. */
  predicate Contains(s: string, t: string) {
    exists i :: 0 <= i <= |s| - |t| && OccursAt(s, t, i)
  }

  /** Case-insensitive occurrence, as `re.IGNORECASE` tests it (ASCII). */
  predicate OccursAtCI(s: string, t: string, i: int) {
    OccursAt(LowerStr(s), LowerStr(t), i)
  }

  /** An occurrence inside an occurrence is an occurrence. */
  lemma OccursWithin(s: string, t: string, u: string, i: int, j: int)
    requires OccursAt(s, t, i) && OccursAt(t, u, j)
    ensures OccursAt(s, u, i + j)
  {
    forall k | 0 <= k < |u|
      ensures s[i + j + k] == u[k]
    {
      assert s[i + j + k] == t[j + k];
    }
  }

  lemma ContainsWithin(s: string, t: string, u: string)
    requires Contains(s, t) && Contains(t, u)
    ensures Contains(s, u)
  {
    var i :| 0 <= i <= |s| - |t| && OccursAt(s, t, i);
    var j :| 0 <= j <= |t| - |u| && OccursAt(t, u, j);
    OccursWithin(s, t, u, i, j);
  }

  /** `s` is a contiguous piece of `t`. */
  predicate IsInfix(s: string, t: string) {
    exists a, b :: 0 <= a <= b <= |t| && t[a..b] == s
  }

  /** Whatever occurs in a piece of `t` occurs in `t`. */
  lemma ContainsInfix(s: string, t: string, u: string)
    requires IsInfix(s, t) && Contains(s, u)
    ensures Contains(t, u)
  {
    var a, b :| 0 <= a <= b <= |t| && t[a..b] == s;
    var i :| 0 <= i <= |s| - |u| && OccursAt(s, u, i);
    assert b == a + |s|;
    assert OccursAt(t, s, a);
    OccursWithin(t, s, u, a, i);
    assert 0 <= a + i <= |t| - |u|;
  }

  /** Lower-casing a piece of `t` gives the same piece of `LowerStr(t)`. */
  lemma LowerInfix(s: string, t: string)
    requires IsInfix(s, t)
    ensures IsInfix(LowerStr(s), LowerStr(t))
  {
    var a, b :| 0 <= a <= b <= |t| && t[a..b] == s;
    LowerStrSlice(t, a, b);
  }

  /** A piece of `t` has no character that `t` lacks. */
  lemma InfixChars(s: string, t: string)
    requires IsInfix(s, t)
    ensures forall c :: c in s ==> c in t
  {
    var a, b :| 0 <= a <= b <= |t| && t[a..b] == s;
    forall c | c in s
      ensures c in t
    {
      var k :| 0 <= k < |s| && s[k] == c;
      assert t[a + k] == c;
    }
  }

  lemma InfixTransitive(s: string, t: string, u: string)
    requires IsInfix(s, t) && IsInfix(t, u)
    ensures IsInfix(s, u)
  {
    var a, b :| 0 <= a <= b <= |t| && t[a..b] == s;
    var c, d :| 0 <= c <= d <= |u| && u[c..d] == t;
    forall k | 0 <= k < b - a
      ensures u[c + a + k] == s[k]
    {
      assert u[c + a + k] == t[a + k];
    }
    assert u[c + a..c + b] == s;
  }

  /** The end of the longest run of characters satisfying `p` that starts at `i`
      (what a greedy `[...]*` consumes). */
  function RunEnd(s: string, i: nat, p: char -> bool): (r: nat)
    requires i <= |s|
    ensures i <= r <= |s|
    ensures forall k :: i <= k < r ==> p(s[k])
    ensures r == |s| || !p(s[r])
    decreases |s| - i
  {
    if i == |s| || !p(s[i]) then i else RunEnd(s, i + 1, p)
  }

  /** `(.*)$` can finish the match from index `q`: `.` stops at a line feed
      and `$` holds at the end or just before a final line feed, so no line
      feed may occur from `q` on except as the very last character. */
  predicate TailOk(s: string, q: nat) {
    forall k :: q <= k < |s| - 1 ==> s[k] != '\n'
  }

  /** What `(.*)$` captures from `q` once `TailOk(s, q)` holds. */
  function TailText(s: string, q: nat): (r: string)
    requires q <= |s|
    ensures TailOk(s, q) ==> forall k :: 0 <= k < |r| ==> r[k] != '\n'
    ensures r <= s[q..]
  {
    if q < |s| && s[|s| - 1] == '\n' then s[q..|s| - 1] else s[q..]
  }

  /** The line feed that a `.*$` match leaves in place at the end of `s`. */
  function FinalNewline(s: string): string {
    if |s| > 0 && s[|s| - 1] == '\n' then "\n" else ""
  }

  /** `re.sub(r'\.', ' ', s)`, and the same for any single character. */
  function Replace(s: string, from: char, to: char): (r: string)
    ensures |r| == |s|
    ensures forall i :: 0 <= i < |s| ==> r[i] == (if s[i] == from then to else s[i])
  {
    seq(|s|, i requires 0 <= i < |s| => if s[i] == from then to else s[i])
  }

  /** Removes the characters satisfying `p` from the front (`lstrip`). */
  function LStrip(s: string, p: char -> bool): (r: string)
    ensures r == s[RunEnd(s, 0, p)..]
    ensures forall c :: c in r ==> c in s
  {
    s[RunEnd(s, 0, p)..]
  }

  /** Removes the characters satisfying `p` from the back (`rstrip`). */
  function RStrip(s: string, p: char -> bool): (r: string)
    ensures r <= s
    ensures r == [] || !p(r[|r| - 1])
    ensures forall k :: |r| <= k < |s| ==> p(s[k])
    decreases |s|
  {
    if |s| > 0 && p(s[|s| - 1]) then RStrip(s[..|s| - 1], p) else s
  }

  /** `s.strip(chars)` where `p` tells which characters are stripped. */
  function StripBy(s: string, p: char -> bool): (r: string)
    ensures IsInfix(r, s)
    ensures r == [] || (!p(r[0]) && !p(r[|r| - 1]))
    ensures r == [] <==> forall k :: 0 <= k < |s| ==> p(s[k])
    ensures var a := RunEnd(s, 0, p);
      a + |r| <= |s| && r == s[a..a + |r|] && forall k :: a + |r| <= k < |s| ==> p(s[k])
  {
    var a := RunEnd(s, 0, p);
    var r := RStrip(s[a..], p);
    assert s[a..a + |r|] == r;
    assert forall k :: a + |r| <= k < |s| ==> s[k] == s[a..][k - a];
    r
  }

  /** `s.strip()`: leading and trailing whitespace removed. */
  function Strip(s: string): (r: string)
    ensures IsInfix(r, s)
    ensures r == [] || (!IsSpace(r[0]) && !IsSpace(r[|r| - 1]))
    ensures r == [] <==> forall k :: 0 <= k < |s| ==> IsSpace(s[k])
    ensures var a := RunEnd(s, 0, IsSpace);
      a + |r| <= |s| && r == s[a..a + |r|] && forall k :: a + |r| <= k < |s| ==> IsSpace(s[k])
  {
    StripBy(s, IsSpace)
  }

  /** No two whitespace characters stand next to each other. */
  predicate NoDoubleSpace(s: string) {
    forall i :: 0 <= i < |s| - 1 ==> !(IsSpace(s[i]) && IsSpace(s[i + 1]))
  }

  lemma InfixNoDoubleSpace(s: string, t: string)
    requires IsInfix(s, t) && NoDoubleSpace(t)
    ensures NoDoubleSpace(s)
  {
    var a, b :| 0 <= a <= b <= |t| && t[a..b] == s;
    forall i | 0 <= i < |s| - 1
      ensures !(IsSpace(s[i]) && IsSpace(s[i + 1]))
    {
      assert s[i] == t[a + i] && s[i + 1] == t[a + i + 1];
    }
  }

  /** `re.sub(r'\s+', ' ', s)`: each maximal run of whitespace becomes one space. */
  function CollapseSpaces(s: string): string
    decreases |s|
  {
    if |s| == 0 then s
    else if IsSpace(s[0]) then " " + CollapseSpaces(s[RunEnd(s, 0, IsSpace)..])
    else [s[0]] + CollapseSpaces(s[1..])
  }

  /** What collapsing promises about `r` as the result for `s`: no two
      whitespace characters are adjacent, every whitespace character is a
      plain space, every other character comes from `s`, nothing got
      longer, and `r` starts with a space exactly when `s` starts with
      whitespace. */
  predicate CollapsedFrom(s: string, r: string) {
    && NoDoubleSpace(r)
    && (forall i :: 0 <= i < |r| && IsSpace(r[i]) ==> r[i] == ' ')
    && (forall i :: 0 <= i < |r| ==> r[i] == ' ' || r[i] in s)
    && |r| <= |s|
    && ((|s| > 0 && IsSpace(s[0])) <==> (|r| > 0 && r[0] == ' '))
  }

  lemma {:induction false} CollapseSpacesShape(s: string)
    ensures CollapsedFrom(s, CollapseSpaces(s))
    decreases |s|
  {
    if |s| == 0 {
    } else if IsSpace(s[0]) {
      var e := RunEnd(s, 0, IsSpace);
      CollapseSpacesShape(s[e..]);
      ShapeAfterRun(s, e);
    } else {
      CollapseSpacesShape(s[1..]);
      ShapeAfterChar(s);
    }
  }

  lemma ShapeAfterRun(s: string, e: nat)
    requires |s| > 0 && IsSpace(s[0]) && e == RunEnd(s, 0, IsSpace)
    requires CollapsedFrom(s[e..], CollapseSpaces(s[e..]))
    ensures CollapsedFrom(s, CollapseSpaces(s))
  {
    var rest := s[e..];
    var c := CollapseSpaces(rest);
    assert CollapseSpaces(s) == " " + c;
    assert |rest| == 0 || !IsSpace(rest[0]);
    assert forall i :: 1 <= i < |c| + 1 ==> (" " + c)[i] == c[i - 1];
    assert forall x :: x in rest ==> x in s;
  }

  lemma ShapeAfterChar(s: string)
    requires |s| > 0 && !IsSpace(s[0])
    requires CollapsedFrom(s[1..], CollapseSpaces(s[1..]))
    ensures CollapsedFrom(s, CollapseSpaces(s))
  {
    var c := CollapseSpaces(s[1..]);
    assert CollapseSpaces(s) == [s[0]] + c;
    assert forall i :: 1 <= i < |c| + 1 ==> ([s[0]] + c)[i] == c[i - 1];
    assert forall x :: x in s[1..] ==> x in s;
  }

  /** The characters of `s` outside `p`, in order. */
  function Without(s: string, p: char -> bool): (r: string)
    ensures |r| <= |s|
  {
    if s == [] then [] else (if p(s[0]) then [] else [s[0]]) + Without(s[1..], p)
  }

  /** Collapsing keeps every character that is not whitespace, in order:
      only whitespace is removed or added. */
  lemma {:induction false} CollapseKeepsNonSpaces(s: string)
    ensures Without(CollapseSpaces(s), IsSpace) == Without(s, IsSpace)
    decreases |s|
  {
    if |s| == 0 {
    } else if IsSpace(s[0]) {
      var e := RunEnd(s, 0, IsSpace);
      CollapseKeepsNonSpaces(s[e..]);
      WithoutRun(s, e, IsSpace);
      WithoutCons(' ', CollapseSpaces(s[e..]), IsSpace);
    } else {
      CollapseKeepsNonSpaces(s[1..]);
      WithoutCons(s[0], CollapseSpaces(s[1..]), IsSpace);
    }
  }

  lemma WithoutCons(c: char, x: string, p: char -> bool)
    ensures Without([c] + x, p) == (if p(c) then [] else [c]) + Without(x, p)
  {
    assert ([c] + x)[1..] == x;
  }

  /** A leading run of `p` leaves nothing behind. */
  lemma {:induction false} WithoutRun(s: string, e: nat, p: char -> bool)
    requires e <= |s| && forall k :: 0 <= k < e ==> p(s[k])
    ensures Without(s, p) == Without(s[e..], p)
    decreases e
  {
    if e > 0 {
      WithoutRun(s[1..], e - 1, p);
      assert s[1..][e - 1..] == s[e..];
    }
  }

  /** `RunEnd` is fixed by its contract: a run of `p` from `i` that ends at
      the end of `s` or before a character outside `p` ends at `r`. */
  lemma RunEndUnique(s: string, i: nat, p: char -> bool, r: nat)
    requires i <= r <= |s|
    requires forall k :: i <= k < r ==> p(s[k])
    requires r == |s| || !p(s[r])
    ensures RunEnd(s, i, p) == r
  {
  }

  /** A whitespace run collapses to one space, and a character that is not
      whitespace is kept. */
  lemma CollapseUnits(run: string, c: char)
    requires run != [] && forall k :: 0 <= k < |run| ==> IsSpace(run[k])
    requires !IsSpace(c)
    ensures CollapseSpaces(run) == " "
    ensures CollapseSpaces([c]) == [c]
  {
    RunEndUnique(run, 0, IsSpace, |run|);
    assert run[|run|..] == [];
  }

  /** Collapsing works piece by piece wherever the cut does not split a
      whitespace run. With `CollapseUnits` this fixes the result for every
      input: split it into its maximal whitespace runs and its other
      characters; each run becomes one space and each other character stays,
      in order. */
  lemma {:induction false} CollapseConcat(a: string, b: string)
    requires a == [] || b == [] || !IsSpace(a[|a| - 1]) || !IsSpace(b[0])
    ensures CollapseSpaces(a + b) == CollapseSpaces(a) + CollapseSpaces(b)
    decreases |a|
  {
    if a == [] {
      assert a + b == b;
      assert CollapseSpaces(a) == [];
    } else if IsSpace(a[0]) {
      var e := RunEnd(a, 0, IsSpace);
      if e < |a| {
        CollapseRunInside(a, b, e);
        CollapseConcat(a[e..], b);
        Associate(" ", CollapseSpaces(a[e..]), CollapseSpaces(b));
      } else {
        CollapseRunWhole(a, b);
      }
    } else {
      CollapseHeadChar(a, b);
      if 1 < |a| {
        CollapseConcat(a[1..], b);
        Associate([a[0]], CollapseSpaces(a[1..]), CollapseSpaces(b));
      }
    }
  }

  lemma Associate(h: string, x: string, y: string)
    ensures h + (x + y) == (h + x) + y
  {
  }

  /** Collapsing `a + b` when `a` starts with a character that is not
      whitespace: it is kept, and the rest of `a` follows. */
  lemma CollapseHeadChar(a: string, b: string)
    requires a != [] && !IsSpace(a[0])
    ensures 1 < |a| ==>
      CollapseSpaces(a + b) == [a[0]] + CollapseSpaces(a[1..] + b) && CollapseSpaces(a) == [a[0]] + CollapseSpaces(a[1..])
    ensures |a| == 1 ==> CollapseSpaces(a + b) == [a[0]] + CollapseSpaces(b) && CollapseSpaces(a) == [a[0]]
  {
    assert (a + b)[0] == a[0];
    assert (a + b)[1..] == a[1..] + b;
    if |a| == 1 {
      assert a[1..] + b == b;
      assert CollapseSpaces(a[1..]) == [];
    }
  }

  /** Collapsing `a + b` when `a` starts with the whitespace run `a[..e]`
      and something follows it in `a`. */
  lemma CollapseRunInside(a: string, b: string, e: nat)
    requires a != [] && IsSpace(a[0]) && e == RunEnd(a, 0, IsSpace) && e < |a|
    ensures CollapseSpaces(a + b) == " " + CollapseSpaces(a[e..] + b)
    ensures CollapseSpaces(a) == " " + CollapseSpaces(a[e..])
  {
    RunEndAppend(a, b, IsSpace);
    assert (a + b)[e..] == a[e..] + b;
  }

  /** Collapsing `a + b` when `a` is one whitespace run and `b` does not
      continue it. */
  lemma CollapseRunWhole(a: string, b: string)
    requires a != [] && RunEnd(a, 0, IsSpace) == |a|
    requires b == [] || !IsSpace(b[0])
    ensures CollapseSpaces(a + b) == " " + CollapseSpaces(b)
    ensures CollapseSpaces(a) == " "
  {
    RunEndAppend(a, b, IsSpace);
    assert (a + b)[|a|..] == b;
    assert a[|a|..] == [];
  }

  /** A run that ends inside `a`, or at its end with `b` not continuing it,
      ends at the same place in `a + b`. */
  lemma RunEndAppend(a: string, b: string, p: char -> bool)
    requires RunEnd(a, 0, p) < |a| || b == [] || !p(b[0])
    ensures RunEnd(a + b, 0, p) == RunEnd(a, 0, p)
  {
    var e := RunEnd(a, 0, p);
    forall k | 0 <= k < e
      ensures p((a + b)[k])
    {
      assert (a + b)[k] == a[k];
    }
    if e < |a| {
      assert (a + b)[e] == a[e];
    }
    RunEndUnique(a + b, 0, p, e);
  }

  /** `(19|20)\d{2}` matches at `i`. */
  predicate YearAt(s: string, i: int) {
    && 0 <= i && i + 4 <= |s|
    && ((s[i] == '1' && s[i + 1] == '9') || (s[i] == '2' && s[i + 1] == '0'))
    && IsDigit(s[i + 2]) && IsDigit(s[i + 3])
  }

  /** Index of the first occurrence of `t` in `s` from `i` on (`str.find`,
      and where `re.split` on the escaped `t` makes its first cut). */
  function Find(s: string, t: string, i: nat): (r: nat)
    requires i <= |s| - |t| && exists k :: i <= k <= |s| - |t| && OccursAt(s, t, k)
    ensures i <= r <= |s| - |t| && OccursAt(s, t, r)
    ensures forall k :: i <= k < r ==> !OccursAt(s, t, k)
    decreases |s| - i
  {
    if OccursAt(s, t, i) then i else Find(s, t, i + 1)
  }

  /** Index of the last `c` in `s`, or -1 (`str.rfind`). */
  function RFind(s: string, c: char): (r: int)
    ensures -1 <= r < |s|
    ensures r >= 0 ==> s[r] == c
    ensures forall k :: r < k < |s| ==> s[k] != c
    decreases |s|
  {
    if |s| == 0 then -1 else if s[|s| - 1] == c then |s| - 1 else RFind(s[..|s| - 1], c)
  }

  /** `pathlib.Path(s).name`: the last component of a `/`-separated path,
      skipping empty and `.` components. */
  function BaseName(s: string): (r: string)
    ensures '/' !in r
    ensures r != "."
    ensures '/' !in s && s != "." ==> r == s
    decreases |s|
  {
    var k := RFind(s, '/');
    var last := s[k + 1..];
    if last != "" && last != "." then last
    else if k < 0 then ""
    else BaseName(s[..k])
  }

  /** `pathlib.Path(s).stem`: the base name without its last suffix; a dot
      counts as starting a suffix only when it is neither the first nor the
      last character of the base name. */
  function Stem(s: string): (r: string)
    ensures '/' !in r
    ensures r <= BaseName(s)
    ensures '.' !in BaseName(s) ==> r == BaseName(s)
    ensures var n := BaseName(s);
      forall i :: 0 < i < |n| - 1 && n[i] == '.' && '.' !in n[i + 1..] ==> r == n[..i]
    ensures var n := BaseName(s);
      |n| > 0 && ('.' !in n[1..] || n[|n| - 1] == '.') ==> r == n
  {
    var name := BaseName(s);
    var i := RFind(name, '.');
    if 0 < i < |name| - 1 then name[..i] else name
  }

  /** A lower-case ASCII letter or a digit: a character that is its own
      lower-case form and is not whitespace. */
  predicate Visible(c: char) {
    IsDigit(c) || 'a' <= c <= 'z'
  }

  /** One of `tags` (lower-case) starts at `q`, ignoring case, and `.*$`
      can run from its end. */
  predicate TagAt(s: string, q: nat, tags: seq<string>) {
    exists t :: t in tags && OccursAt(LowerStr(s), t, q) && TailOk(s, q + |t|)
  }

  /** The first position from `p` on at which `\s*(tag|...).*$` matches
      (`|s|` when there is none). The greedy `\s*` can only give way to a
      tag at the end of the whitespace run, because no tag starts with
      whitespace. */
  function CutAt(s: string, p: nat, tags: seq<string>): (r: nat)
    requires p <= |s|
    ensures p <= r <= |s|
    ensures r < |s| ==> TagAt(s, RunEnd(s, r, IsSpace), tags)
    ensures forall q :: p <= q < r ==> !TagAt(s, RunEnd(s, q, IsSpace), tags)
    decreases |s| - p
  {
    if p == |s| || TagAt(s, RunEnd(s, p, IsSpace), tags) then p else CutAt(s, p + 1, tags)
  }

  /** `re.sub(r'\s*(tag|...).*$', '', s, flags=re.IGNORECASE)`: the text
      before the first match; `.*$` stops short of a final line feed, which
      stays. */
  function CutTags(s: string, tags: seq<string>): (r: string)
    ensures r <= s || r == s[..CutAt(s, 0, tags)] + "\n"
    ensures CutAt(s, 0, tags) < |s| ==> r == s[..CutAt(s, 0, tags)] + FinalNewline(s)
    ensures CutAt(s, 0, tags) == |s| ==> r == s
  {
    var p := CutAt(s, 0, tags);
    if p < |s| then s[..p] + FinalNewline(s) else s
  }

  lemma VisibleStartsRun(s: string, q: nat)
    requires q < |s| && Visible(Lower(s[q]))
    ensures RunEnd(s, q, IsSpace) == q
  {
  }

  /** In line-feed-free text the cut comes at or before every occurrence
      of a tag. */
  lemma CutBeforeTag(s: string, tags: seq<string>, t: string, q: nat)
    requires t in tags && |t| > 0 && Visible(t[0])
    requires '\n' !in s
    requires OccursAt(LowerStr(s), t, q)
    ensures CutAt(s, 0, tags) <= q
  {
    assert LowerStr(s)[q] == t[0];
    VisibleStartsRun(s, q);
    assert TailOk(s, q + |t|);
    assert TagAt(s, q, tags);
  }

  /** In line-feed-free text, none of the tags occurs before the cut. */
  lemma NoTagBeforeCut(s: string, tags: seq<string>)
    requires forall t :: t in tags ==> |t| > 0 && Visible(t[0])
    requires '\n' !in s
    ensures forall t :: t in tags ==> !Contains(LowerStr(CutTags(s, tags)), t)
  {
    forall t | t in tags
      ensures !Contains(LowerStr(CutTags(s, tags)), t)
    {
      TagNotBeforeCut(s, tags, t);
    }
  }

  lemma TagNotBeforeCut(s: string, tags: seq<string>, t: string)
    requires t in tags && |t| > 0 && Visible(t[0])
    requires '\n' !in s
    ensures !Contains(LowerStr(CutTags(s, tags)), t)
  {
    var r := CutAt(s, 0, tags);
    var lower := LowerStr(s);
    assert CutTags(s, tags) == s[..r];
    LowerStrSlice(s, 0, r);
    forall q | 0 <= q <= r - |t|
      ensures !OccursAt(lower, t, q)
    {
      NoOccurrenceBeforeCut(s, tags, t, q);
    }
    NotInPrefix(lower, t, r);
  }

  /** No occurrence starting early enough to fit in `u[..r]`: none in it. */
  lemma NotInPrefix(u: string, t: string, r: nat)
    requires r <= |u|
    requires forall q :: 0 <= q <= r - |t| ==> !OccursAt(u, t, q)
    ensures !Contains(u[..r], t)
  {
    forall q | 0 <= q <= r - |t|
      ensures !OccursAt(u[..r], t, q)
    {
      assert !OccursAt(u, t, q);
      if q + |t| <= r {
        assert u[..r][q..q + |t|] == u[q..q + |t|];
      }
    }
  }

  lemma NoOccurrenceBeforeCut(s: string, tags: seq<string>, t: string, q: nat)
    requires t in tags && |t| > 0 && Visible(t[0])
    requires '\n' !in s
    requires q < CutAt(s, 0, tags)
    ensures !OccursAt(LowerStr(s), t, q)
  {
    if OccursAt(LowerStr(s), t, q) {
      CutBeforeTag(s, tags, t, q);
    }
  }

  /** Cutting adds no character. */
  lemma CutTagsKeeps(s: string, tags: seq<string>, c: char)
    requires c !in s
    ensures c !in CutTags(s, tags)
  {
    var p := CutAt(s, 0, tags);
    if p < |s| {
      assert CutTags(s, tags) == s[..p] + FinalNewline(s);
    }
  }
}
