/** Python string rules the converters rely on: `in`, `startswith`, `split(sep)`, `split()`,
    `strip()`, `replace`, and the `path.split(ext)[0].split('\\')[-1]` idiom that derives a
    file name. Strings are sequences of characters. */
module Text {
  import opened Base

  /** Characters Python's `str.isspace` accepts (and `split()`/`strip()` remove). */
  predicate IsSpace(c: char) {
    c == ' ' || c == '\t' || c == '\n' || c == '\r' || c == '\U{0B}' || c == '\U{0C}'
    || ('\U{1C}' <= c <= '\U{1F}') || c == '\U{85}' || c == '\U{A0}' || c == '\U{1680}'
    || ('\U{2000}' <= c <= '\U{200A}') || c == '\U{2028}' || c == '\U{2029}'
    || c == '\U{202F}' || c == '\U{205F}' || c == '\U{3000}'
  }

  predicate IsDigit(c: char) { '0' <= c <= '9' }

  /** Every character from `lo` up to `hi` is a decimal digit. */
  predicate DigitsIn(s: string, lo: nat, hi: nat) {
    lo <= hi <= |s| && forall j :: lo <= j < hi ==> IsDigit(s[j])
  }

  /** Where the run of digits starting at `k` stops. */
  function DigitEnd(s: string, k: nat): (d: nat)
    requires k <= |s|
    decreases |s| - k
    ensures DigitsIn(s, k, d) && (d < |s| ==> !IsDigit(s[d]))
  {
    if k == |s| || !IsDigit(s[k]) then k else DigitEnd(s, k + 1)
  }

  /** A run of digits ends where the first non-digit (or the end) is. */
  lemma {:induction false} DigitEndAt(s: string, k: nat, d: nat)
    requires DigitsIn(s, k, d) && (d < |s| ==> !IsDigit(s[d]))
    ensures DigitEnd(s, k) == d
    decreases d - k
  {
    if k < d {
      DigitEndAt(s, k + 1, d);
    }
  }

  predicate StartsWith(s: string, p: string) {
    |p| <= |s| && s[..|p|] == p
  }

  predicate EndsWith(s: string, suffix: string) {
    |suffix| <= |s| && s[|s| - |suffix|..] == suffix
  }

  /** `sub` occurs in `s` starting at index `i`. */
  predicate OccursAt(s: string, sub: string, i: nat) {
    i + |sub| <= |s| && s[i..i + |sub|] == sub
  }

  /** First occurrence of `sub` in `s` at or after `k`. */
  function IndexFrom(s: string, sub: string, k: nat): (r: Option<nat>)
    decreases |s| - k
    ensures r.Some? ==> k <= r.value && OccursAt(s, sub, r.value)
    ensures r.Some? ==> forall j :: k <= j < r.value ==> !OccursAt(s, sub, j)
    ensures r.None? ==> forall j :: k <= j ==> !OccursAt(s, sub, j)
  {
    if k + |sub| > |s| then None
    else if s[k..k + |sub|] == sub then Some(k)
    else IndexFrom(s, sub, k + 1)
  }

  /** Python `s.find(sub)`, with None for -1. */
  function IndexOf(s: string, sub: string): (r: Option<nat>)
    ensures r.Some? ==> OccursAt(s, sub, r.value) && forall j: nat :: j < r.value ==> !OccursAt(s, sub, j)
    ensures r.None? ==> forall j :: !OccursAt(s, sub, j)
  {
    IndexFrom(s, sub, 0)
  }

  /** Python `sub in s`. */
  predicate Contains(s: string, sub: string) {
    IndexOf(s, sub).Some?
  }

  lemma ContainsAt(s: string, sub: string, i: nat)
    requires OccursAt(s, sub, i)
    ensures Contains(s, sub)
  {
  }

  /** An occurrence inside a prefix is an occurrence in the whole string. */
  lemma OccursInPrefix(s: string, sub: string, n: nat, j: nat)
    requires n <= |s| && OccursAt(s[..n], sub, j)
    ensures OccursAt(s, sub, j)
  {
    assert s[..n][j..j + |sub|] == s[j..j + |sub|];
  }

  /** An occurrence inside a suffix is an occurrence in the whole string, shifted. */
  lemma OccursInSuffix(s: string, sub: string, n: nat, j: nat)
    requires n <= |s| && OccursAt(s[n..], sub, j)
    ensures OccursAt(s, sub, n + j)
  {
    assert s[n..][j..j + |sub|] == s[n + j..n + j + |sub|];
  }

  /** A string without `sub` has no `sub` in any of its suffixes. */
  lemma NoOccurrenceInSuffix(s: string, sub: string, n: nat)
    requires n <= |s| && !Contains(s, sub)
    ensures !Contains(s[n..], sub)
  {
    forall j: nat | OccursAt(s[n..], sub, j) ensures false {
      OccursInSuffix(s, sub, n, j);
    }
  }

  /** A string without `sub` has no `sub` in any of its prefixes. */
  lemma NoOccurrenceInPrefix(s: string, sub: string, n: nat)
    requires n <= |s| && !Contains(s, sub)
    ensures !Contains(s[..n], sub)
  {
    forall j: nat | OccursAt(s[..n], sub, j) ensures false {
      OccursInPrefix(s, sub, n, j);
    }
  }

  /** `sep.join(parts)`. */
  function Join(parts: seq<string>, sep: string): string
    requires |parts| >= 1
  {
    if |parts| == 1 then parts[0] else parts[0] + sep + Join(parts[1..], sep)
  }

  /** Python `s.split(sep)` for a non-empty separator: the pieces between non-overlapping
      occurrences found left to right. */
  function Split(s: string, sep: string): (parts: seq<string>)
    requires sep != []
    decreases |s|
    ensures |parts| >= 1
  {
    match IndexOf(s, sep)
    case None => [s]
    case Some(i) => [s[..i]] + Split(s[i + |sep|..], sep)
  }

  /** The text before the first occurrence of `sep` holds no `sep`. */
  lemma BeforeFirstOccurrence(s: string, sep: string, i: nat)
    requires sep != [] && IndexOf(s, sep) == Some(i)
    ensures !Contains(s[..i], sep)
    ensures s[..i] + sep + s[i + |sep|..] == s
  {
    forall j | OccursAt(s[..i], sep, j) ensures false {
      OccursInPrefix(s, sep, i, j);
    }
    assert s[i..i + |sep|] == sep;
    assert s == s[..i] + s[i..i + |sep|] + s[i + |sep|..];
  }

  /** Joining the pieces of `s.split(sep)` with `sep` gives `s` back, and no piece holds
      `sep`. */
  lemma SplitJoinRoundTrip(s: string, sep: string)
    requires sep != []
    ensures Join(Split(s, sep), sep) == s
    ensures forall k :: 0 <= k < |Split(s, sep)| ==> !Contains(Split(s, sep)[k], sep)
  {
    SplitJoin(s, sep);
    SplitPiecesLackSep(s, sep);
  }

  lemma {:induction false} SplitJoin(s: string, sep: string)
    requires sep != []
    ensures Join(Split(s, sep), sep) == s
    decreases |s|
  {
    match IndexOf(s, sep)
    case None =>
    case Some(i) =>
      var rest := s[i + |sep|..];
      SplitJoin(rest, sep);
      var parts := Split(rest, sep);
      assert Split(s, sep) == [s[..i]] + parts;
      JoinCons(s[..i], parts, sep);
      assert Join(Split(s, sep), sep) == s[..i] + sep + rest;
      BeforeFirstOccurrence(s, sep, i);
  }

  lemma {:induction false} SplitPiecesLackSep(s: string, sep: string)
    requires sep != []
    ensures forall k :: 0 <= k < |Split(s, sep)| ==> !Contains(Split(s, sep)[k], sep)
    decreases |s|
  {
    match IndexOf(s, sep)
    case None =>
    case Some(i) =>
      var rest := s[i + |sep|..];
      SplitPiecesLackSep(rest, sep);
      BeforeFirstOccurrence(s, sep, i);
      var p, q := Split(s, sep), Split(rest, sep);
      assert p == [s[..i]] + q;
      forall k | 0 <= k < |p| ensures !Contains(p[k], sep) {
        if k == 0 {
          assert p[k] == s[..i];
        } else {
          assert p[k] == q[k - 1] && !Contains(q[k - 1], sep);
        }
      }
  }

  /** `s.split(sep)[0]`: the text before the first occurrence of `sep`. */
  function BeforeFirst(s: string, sep: string): (r: string)
    requires sep != []
    ensures StartsWith(s, r) && !Contains(r, sep)
    ensures Contains(s, sep) ==> OccursAt(s, sep, |r|)
    ensures !Contains(s, sep) ==> r == s
  {
    match IndexOf(s, sep)
    case None => Split(s, sep)[0]
    case Some(i) =>
      BeforeFirstOccurrence(s, sep, i);
      Split(s, sep)[0]
  }

  /** `s.split(sep)[-1]`: the text after the last occurrence of `sep`. */
  function AfterLast(s: string, sep: string): (r: string)
    requires sep != []
    ensures EndsWith(s, r) && !Contains(r, sep)
  {
    var parts := Split(s, sep);
    SplitJoinRoundTrip(s, sep);
    LastPartIsSuffix(parts, sep);
    parts[|parts| - 1]
  }

  lemma {:induction false} LastPartIsSuffix(parts: seq<string>, sep: string)
    requires |parts| >= 1
    ensures EndsWith(Join(parts, sep), parts[|parts| - 1])
  {
    if |parts| > 1 {
      LastPartIsSuffix(parts[1..], sep);
      var tail := Join(parts[1..], sep);
      var last := parts[|parts| - 1];
      assert parts[1..][|parts[1..]| - 1] == last;
      assert Join(parts, sep) == parts[0] + sep + tail;
      assert (parts[0] + sep + tail)[|parts[0] + sep + tail| - |last|..] == tail[|tail| - |last|..];
    }
  }

  /** A string with no occurrence of `sep` splits into itself. */
  lemma SplitNoMatch(s: string, sep: string)
    requires sep != [] && !Contains(s, sep)
    ensures Split(s, sep) == [s]
  {
  }

  /** The file-name idiom of the converters: `path.split(ext)[0].split('\\')[-1]`. */
  function FileStem(path: string, ext: string): (name: string)
    requires ext != []
    ensures !Contains(name, "\\") && !Contains(name, ext)
  {
    var b := BeforeFirst(path, ext);
    var r := AfterLast(b, "\\");
    assert b[|b| - |r|..] == r;
    NoOccurrenceInSuffix(b, ext, |b| - |r|);
    r
  }

  /** For the usual Windows path `dir + name + ext`, where `dir` is empty or ends in a
      backslash and `name` holds neither a backslash nor `ext`, the idiom yields `name`. */
  lemma {:induction false} FileStemOfPath(dir: string, name: string, ext: string)
    requires ext != []
    requires dir == [] || dir[|dir| - 1] == '\\'
    requires !Contains(name, "\\")
    requires IndexOf(dir + name + ext, ext) == Some(|dir + name|)
    ensures FileStem(dir + name + ext, ext) == name
  {
    var path := dir + name + ext;
    var b := BeforeFirst(path, ext);
    assert b == dir + name by {
      assert OccursAt(path, ext, |b|);
      assert |b| == |dir + name|;
      assert path[..|b|] == dir + name;
    }
    if dir == [] {
      assert b == name;
      SplitNoMatch(name, "\\");
    } else {
      var d := dir[..|dir| - 1];
      assert b == d + "\\" + name;
      SplitLastAfterSep(d, name, '\\');
    }
  }

  /** When `s` ends with `c + tail` and `tail` has no `c`, the last split piece is `tail`. */
  lemma {:induction false} SplitLastAfterSep(d: string, tail: string, c: char)
    requires !Contains(tail, [c])
    ensures var p := Split(d + [c] + tail, [c]); p[|p| - 1] == tail
    decreases |d|
  {
    var sep := [c];
    var s := d + sep + tail;
    assert OccursAt(s, sep, |d|) by { assert s[|d|..|d| + 1] == sep; }
    var i := IndexOf(s, sep).value;
    assert i <= |d|;
    var rest := s[i + |sep|..];
    SplitLastSkipsFirst(s, sep, i);
    var q := Split(rest, sep);
    if i == |d| {
      assert rest == tail;
      SplitNoMatch(tail, sep);
      assert q == [tail];
    } else {
      var d' := d[i + 1..];
      assert rest == d' + sep + tail;
      SplitLastAfterSep(d', tail, c);
    }
    assert q[|q| - 1] == tail;
  }

  /** The last piece of a split is the last piece of what follows the first separator. */
  lemma SplitLastSkipsFirst(s: string, sep: string, i: nat)
    requires sep != [] && IndexOf(s, sep) == Some(i)
    ensures var p := Split(s, sep); var q := Split(s[i + |sep|..], sep);
      p[|p| - 1] == q[|q| - 1]
  {
    SplitAtFirst(s, sep, i);
    LastOfCons(s[..i], Split(s[i + |sep|..], sep));
  }

  lemma LastOfCons<T>(x: T, q: seq<T>)
    requires |q| >= 1
    ensures ([x] + q)[|[x] + q| - 1] == q[|q| - 1]
  {
  }

  /** Python `s.replace(pat, repl)`: every non-overlapping occurrence, taken left to right. */
  function ReplaceAll(s: string, pat: string, repl: string): string
    requires pat != []
    decreases |s|
  {
    if |s| < |pat| then s
    else if s[..|pat|] == pat then repl + ReplaceAll(s[|pat|..], pat, repl)
    else [s[0]] + ReplaceAll(s[1..], pat, repl)
  }

  /** Python `s.replace(pat, repl)` for any `pat`: an empty pattern matches before every
      character and at the end. */
  function Replace(s: string, pat: string, repl: string): (r: string)
    ensures pat == [] ==> |r| == |s| + (|s| + 1) * |repl|
  {
    if pat != [] then ReplaceAll(s, pat, repl)
    else if s == [] then repl
    else repl + [s[0]] + Replace(s[1..], pat, repl)
  }

  /** Text before the first occurrence is copied unchanged. */
  lemma {:induction false} ReplaceSkipsPrefix(s: string, pat: string, repl: string, i: nat)
    requires pat != [] && i <= |s|
    requires forall j: nat :: j < i ==> !OccursAt(s, pat, j)
    ensures ReplaceAll(s, pat, repl) == s[..i] + ReplaceAll(s[i..], pat, repl)
    decreases i
  {
    if i > 0 {
      if |s| < |pat| {
        assert s[..i] + s[i..] == s;
      } else {
        assert !OccursAt(s, pat, 0);
        NoEarlyOccurrenceInTail(s, pat, i);
        ReplaceSkipsPrefix(s[1..], pat, repl, i - 1);
        TailSlices(s, i);
        ConcatAssoc([s[0]], s[1..][..i - 1], ReplaceAll(s[i..], pat, repl));
      }
    }
  }

  lemma NoEarlyOccurrenceInTail(s: string, pat: string, i: nat)
    requires 1 <= i <= |s| && forall j: nat :: j < i ==> !OccursAt(s, pat, j)
    ensures forall j: nat :: j < i - 1 ==> !OccursAt(s[1..], pat, j)
  {
    forall j: nat | j < i - 1 && OccursAt(s[1..], pat, j) ensures false {
      OccursInSuffix(s, pat, 1, j);
    }
  }

  lemma TailSlices<T>(s: seq<T>, i: nat)
    requires 1 <= i <= |s|
    ensures s[1..][i - 1..] == s[i..] && [s[0]] + s[1..][..i - 1] == s[..i]
  {
  }

  /** At an occurrence, the replacement is emitted and scanning resumes after it. */
  lemma ReplaceAtOccurrence(t: string, pat: string, repl: string)
    requires pat != [] && OccursAt(t, pat, 0)
    ensures ReplaceAll(t, pat, repl) == repl + ReplaceAll(t[|pat|..], pat, repl)
  {
  }

  lemma SplitAtFirst(s: string, pat: string, i: nat)
    requires pat != [] && IndexOf(s, pat) == Some(i)
    ensures Split(s, pat) == [s[..i]] + Split(s[i + |pat|..], pat)
  {
  }

  /** Without an occurrence, `replace` changes nothing. */
  lemma ReplaceNoMatch(s: string, pat: string, repl: string)
    requires pat != [] && !Contains(s, pat)
    ensures ReplaceAll(s, pat, repl) == s
  {
    ReplaceSkipsPrefix(s, pat, repl, |s|);
    assert s[..|s|] == s;
    assert ReplaceAll(s[|s|..], pat, repl) == [];
  }

  lemma JoinCons(p: string, parts: seq<string>, sep: string)
    requires |parts| >= 1
    ensures Join([p] + parts, sep) == p + sep + Join(parts, sep)
  {
    assert ([p] + parts)[1..] == parts;
  }

  /** `s.replace(pat, repl)` is `repl.join(s.split(pat))`. */
  lemma {:induction false} ReplaceIsJoinOfSplit(s: string, pat: string, repl: string)
    requires pat != []
    ensures ReplaceAll(s, pat, repl) == Join(Split(s, pat), repl)
    decreases |s|
  {
    match IndexOf(s, pat)
    case None =>
      ReplaceNoMatch(s, pat, repl);
      SplitNoMatch(s, pat);
    case Some(i) =>
      var rest := s[i + |pat|..];
      ReplaceIsJoinOfSplit(rest, pat, repl);
      ReplaceAtFirst(s, pat, repl, i);
      SplitAtFirst(s, pat, i);
      JoinCons(s[..i], Split(rest, pat), repl);
  }

  /** At the first occurrence `i`, `replace` copies `s[..i]`, emits `repl` and goes on. */
  lemma ReplaceAtFirst(s: string, pat: string, repl: string, i: nat)
    requires pat != [] && i <= |s| && OccursAt(s, pat, i) && forall j: nat :: j < i ==> !OccursAt(s, pat, j)
    ensures ReplaceAll(s, pat, repl) == s[..i] + repl + ReplaceAll(s[i + |pat|..], pat, repl)
  {
    ReplaceSkipsPrefix(s, pat, repl, i);
    OccurrenceStartsSuffix(s, pat, i);
    ReplaceAtOccurrence(s[i..], pat, repl);
    ConcatAssoc(s[..i], repl, ReplaceAll(s[i + |pat|..], pat, repl));
  }

  lemma OccurrenceStartsSuffix(s: string, pat: string, i: nat)
    requires OccursAt(s, pat, i)
    ensures OccursAt(s[i..], pat, 0) && s[i..][|pat|..] == s[i + |pat|..]
  {
    assert s[i..][..|pat|] == s[i..i + |pat|];
  }

  lemma ConcatAssoc<T>(a: seq<T>, b: seq<T>, c: seq<T>)
    ensures a + (b + c) == a + b + c
  {
  }

  /** Replacing the only occurrence of `pat`, which ends the string. */
  lemma ReplaceAtEnd(p: string, pat: string, repl: string)
    requires pat != [] && IndexOf(p + pat, pat) == Some(|p|)
    ensures ReplaceAll(p + pat, pat, repl) == p + repl
  {
    ReplaceSkipsPrefix(p + pat, pat, repl, |p|);
    assert (p + pat)[..|p|] == p;
    assert (p + pat)[|p|..] == pat;
    assert pat[..|pat|] == pat;
    assert pat[|pat|..] == [];
  }

  /** Number of leading characters of `s` that are not whitespace. */
  function TokenLength(s: string): (n: nat)
    ensures n <= |s| && forall k :: 0 <= k < n ==> !IsSpace(s[k])
    ensures n < |s| ==> IsSpace(s[n])
  {
    if s == [] || IsSpace(s[0]) then 0 else 1 + TokenLength(s[1..])
  }

  /** Python `s.split()`: the maximal runs of non-whitespace characters, in order. */
  function Words(s: string): (ws: seq<string>)
    decreases |s|
    ensures forall k :: 0 <= k < |ws| ==> ws[k] != [] && forall c :: c in ws[k] ==> !IsSpace(c)
  {
    if s == [] then []
    else if IsSpace(s[0]) then Words(s[1..])
    else
      var n := TokenLength(s);
      [s[..n]] + Words(s[n..])
  }

  /** `s` with its whitespace removed. */
  function NonSpace(s: string): string {
    if s == [] then [] else (if IsSpace(s[0]) then [] else [s[0]]) + NonSpace(s[1..])
  }

  function Concat(ws: seq<string>): string {
    if ws == [] then [] else ws[0] + Concat(ws[1..])
  }

  lemma {:induction false} NonSpaceAppend(a: string, b: string)
    ensures NonSpace(a + b) == NonSpace(a) + NonSpace(b)
    decreases |a|
  {
    if a != [] {
      assert (a + b)[1..] == a[1..] + b;
      NonSpaceAppend(a[1..], b);
    } else {
      assert a + b == b;
    }
  }

  lemma {:induction false} NonSpaceOfToken(t: string)
    requires forall c :: c in t ==> !IsSpace(c)
    ensures NonSpace(t) == t
  {
    if t != [] {
      assert forall c :: c in t[1..] ==> c in t;
      NonSpaceOfToken(t[1..]);
    }
  }

  /** The words of `s`, put back together, are exactly its non-whitespace characters. */
  lemma {:induction false} WordsKeepEveryCharacter(s: string)
    ensures Concat(Words(s)) == NonSpace(s)
    decreases |s|
  {
    if s != [] {
      if IsSpace(s[0]) {
        WordsKeepEveryCharacter(s[1..]);
      } else {
        var n := TokenLength(s);
        WordsKeepEveryCharacter(s[n..]);
        assert s == s[..n] + s[n..];
        NonSpaceAppend(s[..n], s[n..]);
        NonSpaceOfToken(s[..n]);
        assert ([s[..n]] + Words(s[n..]))[1..] == Words(s[n..]);
      }
    }
  }

  /** Every character of `t` is whitespace. */
  predicate AllSpace(t: string) {
    t == [] || (IsSpace(t[0]) && AllSpace(t[1..]))
  }

  lemma {:induction false} SpaceSnoc(t: string, c: char)
    requires AllSpace(t) && IsSpace(c)
    ensures AllSpace(t + [c])
  {
    if t != [] {
      SpaceSnoc(t[1..], c);
      assert (t + [c])[1..] == t[1..] + [c];
    }
  }

  /** The number of whitespace characters `s` starts with. */
  function LeadingSpaces(s: string): (n: nat)
    ensures n <= |s|
  {
    if s != [] && IsSpace(s[0]) then 1 + LeadingSpaces(s[1..]) else 0
  }

  /** The number of whitespace characters `s` ends with. */
  function TrailingSpaces(s: string): (n: nat)
    ensures n <= |s|
  {
    if s != [] && IsSpace(s[|s| - 1]) then 1 + TrailingSpaces(s[..|s| - 1]) else 0
  }

  /** The first `LeadingSpaces(s)` characters are whitespace. */
  lemma {:induction false} LeadingSpacesAreSpace(s: string)
    ensures AllSpace(s[..LeadingSpaces(s)])
  {
    if s != [] && IsSpace(s[0]) {
      LeadingSpacesAreSpace(s[1..]);
      var n := LeadingSpaces(s);
      assert s[..n][1..] == s[1..][..n - 1];
    }
  }

  /** The character after the leading whitespace is not whitespace. */
  lemma {:induction false} LeadingSpacesStop(s: string)
    ensures LeadingSpaces(s) < |s| ==> !IsSpace(s[LeadingSpaces(s)])
  {
    if s != [] && IsSpace(s[0]) {
      LeadingSpacesStop(s[1..]);
    }
  }

  /** The last `TrailingSpaces(s)` characters are whitespace. */
  lemma {:induction false} TrailingSpacesAreSpace(s: string)
    ensures AllSpace(s[|s| - TrailingSpaces(s)..])
  {
    if s != [] && IsSpace(s[|s| - 1]) {
      var f := s[..|s| - 1];
      TrailingSpacesAreSpace(f);
      var n := TrailingSpaces(s);
      SpaceSnoc(f[|f| - (n - 1)..], s[|s| - 1]);
      assert s[|s| - n..] == f[|f| - (n - 1)..] + [s[|s| - 1]];
    } else {
      assert s[|s|..] == [];
    }
  }

  /** The character before the trailing whitespace is not whitespace. */
  lemma {:induction false} TrailingSpacesStop(s: string)
    ensures TrailingSpaces(s) < |s| ==> !IsSpace(s[|s| - TrailingSpaces(s) - 1])
  {
    if s != [] && IsSpace(s[|s| - 1]) {
      TrailingSpacesStop(s[..|s| - 1]);
    }
  }

  /** Where the trailing whitespace of `s` begins once its leading whitespace is gone. */
  function StripEnd(s: string): (b: nat)
    ensures LeadingSpaces(s) <= b <= |s|
  {
    var a := LeadingSpaces(s);
    |s| - TrailingSpaces(s[a..])
  }

  /** Python `s.strip()`: the slice of `s` between its leading and its trailing whitespace. */
  function Strip(s: string): string {
    s[LeadingSpaces(s)..StripEnd(s)]
  }

  /** `s` is what `strip` removes in front, then `Strip(s)`, then what it removes behind. */
  lemma StripIsMiddle(s: string)
    ensures s == s[..LeadingSpaces(s)] + Strip(s) + s[StripEnd(s)..]
  {
    ThreeSlices(s, LeadingSpaces(s), StripEnd(s));
  }

  /** What `strip` removes on either side is whitespace. */
  lemma StripRemovesOuterSpace(s: string)
    ensures AllSpace(s[..LeadingSpaces(s)]) && AllSpace(s[StripEnd(s)..])
  {
    var a := LeadingSpaces(s);
    LeadingSpacesAreSpace(s);
    TrailingSpacesAreSpace(s[a..]);
    SuffixOfSuffix(s, a, TrailingSpaces(s[a..]));
  }

  /** The stripped string neither starts nor ends with whitespace. */
  lemma StripTrims(s: string)
    ensures var r := Strip(s); r != [] ==> !IsSpace(r[0]) && !IsSpace(r[|r| - 1])
  {
    var a := LeadingSpaces(s);
    var l := s[a..];
    LeadingSpacesStop(s);
    TrailingSpacesStop(l);
    var r := Strip(s);
    if r != [] {
      assert r[0] == s[a];
      assert r[|r| - 1] == l[|l| - TrailingSpaces(l) - 1];
    }
  }

  lemma SuffixOfSuffix<T>(s: seq<T>, a: nat, t: nat)
    requires a <= |s| && t <= |s| - a
    ensures s[a..][|s[a..]| - t..] == s[|s| - t..]
  {
  }

  lemma ThreeSlices<T>(s: seq<T>, a: nat, b: nat)
    requires a <= b <= |s|
    ensures s == s[..a] + s[a..b] + s[b..]
  {
  }

  /** ASCII lower-casing, which is all the `.lower()` calls here depend on. */
  function LowerChar(c: char): char {
    if 'A' <= c <= 'Z' then (c as int + 32) as char else c
  }

  function Lower(s: string): (r: string)
    ensures |r| == |s| && forall k :: 0 <= k < |s| ==> r[k] == LowerChar(s[k])
  {
    seq(|s|, k requires 0 <= k < |s| => LowerChar(s[k]))
  }

  function DigitChar(d: nat): char
    requires d < 10
  {
    ('0' as int + d) as char
  }

  /** The value of a run of decimal digits. */
  function DigitsValue(s: string): nat
    requires forall c :: c in s ==> IsDigit(c)
  {
    if s == [] then 0
    else
      assert forall c :: c in s[..|s| - 1] ==> c in s;
      assert s[|s| - 1] in s && IsDigit(s[|s| - 1]);
      10 * DigitsValue(s[..|s| - 1]) + (s[|s| - 1] as int - '0' as int)
  }

  /** Python `str(n)` for a natural number. */
  function NatToString(n: nat): (s: string)
    ensures s != [] && forall c :: c in s ==> IsDigit(c)
  {
    if n < 10 then [DigitChar(n)] else NatToString(n / 10) + [DigitChar(n % 10)]
  }

  /** Reading the digits back gives the number: `int(str(n)) == n`. */
  lemma {:induction false} NatToStringRoundTrip(n: nat)
    ensures DigitsValue(NatToString(n)) == n
  {
    if n >= 10 {
      NatToStringRoundTrip(n / 10);
      var s := NatToString(n);
      assert s[..|s| - 1] == NatToString(n / 10);
    }
  }

  /** Distinct numbers have distinct decimal strings. */
  lemma NatToStringInjective(m: nat, n: nat)
    requires NatToString(m) == NatToString(n)
    ensures m == n
  {
    NatToStringRoundTrip(m);
    NatToStringRoundTrip(n);
  }

  /** A run of digits followed by a space is read back unambiguously: the space after the
      digits is the first one. */
  lemma DigitsThenSpace(a: string, x: string, b: string, y: string)
    requires forall c :: c in a ==> IsDigit(c)
    requires forall c :: c in b ==> IsDigit(c)
    requires a + " " + x == b + " " + y
    ensures a == b && x == y
  {
    var s := a + " " + x;
    assert forall k :: 0 <= k < |a| ==> s[k] == a[k] && a[k] in a;
    assert forall k :: 0 <= k < |b| ==> s[k] == b[k] && b[k] in b;
    assert s[|a|] == ' ' && s[|b|] == ' ';
    assert a == s[..|a|] == b;
    assert x == s[|a| + 1..] == y;
  }

  /** Python `s[:-n]` for `n >= 1`: all but the last `n` characters, or nothing when `s` is
      shorter than `n`. */
  function DropLast(s: string, n: nat): (r: string)
    requires n >= 1
    ensures StartsWith(s, r)
    ensures |s| >= n ==> |r| == |s| - n
    ensures |s| < n ==> r == []
  {
    if |s| >= n then s[..|s| - n] else []
  }

  /** Dropping the length of a suffix gives back the stem: `(stem + ".png")[:-4] == stem`. */
  lemma DropLastOfSuffixed(stem: string, suffix: string)
    requires |suffix| >= 1
    ensures DropLast(stem + suffix, |suffix|) == stem
  {
    assert (stem + suffix)[..|stem|] == stem;
  }
}
