/** String operations the scanners and the migrator rely on, stated with the
    semantics of the Python and Go library calls they stand for
    (`str.replace`, `str.strip`, `str.split`, `strings.Split`,
    `strings.TrimSpace`, `strings.Fields`, decimal formatting). Trimming and
    splitting at whitespace take the language whose notion of whitespace
    they follow. */
module Text {

  datatype Option<T> = None | Some(value: T)

  /** Whose whitespace a trim or split uses: Python's `str.isspace`, which
      `str.strip`, `str.split` and the regular expression class `\\s`
      follow, or Go's `unicode.IsSpace`, which `strings.TrimSpace` and
      `strings.Fields` follow. */
  datatype Lang = Python | Go

  /** The whitespace characters of each language. Both count the ASCII
      controls tab to carriage return, the space, U+0085, U+00A0 and the
      Unicode space separators and line and paragraph separators; Python
      also counts the information separators U+001C to U+001F. */
  predicate IsSpace(lang: Lang, c: char) {
    || ('\t' <= c <= '\r') || c == ' '
    || c == '\U{0085}' || c == '\U{00A0}' || c == '\U{1680}'
    || ('\U{2000}' <= c <= '\U{200A}')
    || c == '\U{2028}' || c == '\U{2029}' || c == '\U{202F}' || c == '\U{205F}' || c == '\U{3000}'
    || (lang == Python && '\U{001C}' <= c <= '\U{001F}')
  }

  predicate NoSpace(lang: Lang, s: string) {
    forall i :: 0 <= i < |s| ==> !IsSpace(lang, s[i])
  }

  predicate StartsWith(s: string, p: string) {
    |p| <= |s| && s[..|p|] == p
  }

  predicate EndsWith(s: string, p: string) {
    |p| <= |s| && s[|s| - |p|..] == p
  }

  /** `p` occurs in `s` at offset `i`. */
  predicate OccursAt(s: string, p: string, i: int) {
    0 <= i && i + |p| <= |s| && s[i..i + |p|] == p
  }

  /** The first occurrence of `p` in `s` at or after `from`. */
  function IndexFrom(s: string, p: string, from: nat): (r: Option<nat>)
    requires from <= |s|
    decreases |s| - from
    ensures r.Some? ==> from <= r.value && OccursAt(s, p, r.value)
    ensures r.Some? ==> forall j :: from <= j < r.value ==> !OccursAt(s, p, j)
    ensures r.None? ==> forall j :: from <= j ==> !OccursAt(s, p, j)
  {
    if from + |p| > |s| then None
    else if s[from..from + |p|] == p then Some(from)
    else if from == |s| then None
    else IndexFrom(s, p, from + 1)
  }

  function IndexOf(s: string, p: string): (r: Option<nat>)
    ensures r.Some? ==> OccursAt(s, p, r.value) && forall j :: 0 <= j < r.value ==> !OccursAt(s, p, j)
    ensures r.None? ==> forall j :: !OccursAt(s, p, j)
  {
    IndexFrom(s, p, 0)
  }

  /** Python's `p in s`, Go's `strings.Contains(s, p)`. */
  predicate Contains(s: string, p: string) {
    IndexOf(s, p).Some?
  }

  lemma ContainsIff(s: string, p: string)
    ensures Contains(s, p) <==> exists i :: OccursAt(s, p, i)
  {
  }

  /** The position `i` lies inside an occurrence of `p` that starts at
      `i - k` for some `0 <= k < |p|`: used to state split points. */
  lemma OccurrenceShift(s: string, p: string, i: nat)
    requires i <= |s| && OccursAt(s[i..], p, 0)
    ensures OccursAt(s, p, i)
  {
    assert s[i..][0..|p|] == s[i..i + |p|];
  }

  // ---------------------------------------------------------------------
  // Python str.replace

  /** `rep` before every character of `s` and after the last: what Python's
      `s.replace("", rep)` returns. */
  function Interleave(s: string, rep: string): (r: string)
    ensures |r| == |s| + (|s| + 1) * |rep|
  {
    if s == [] then rep else rep + [s[0]] + Interleave(s[1..], rep)
  }

  /** Python's `s.replace(pat, rep)`: every non-overlapping occurrence of
      `pat`, scanning left to right, is replaced by `rep`. */
  function ReplaceAll(s: string, pat: string, rep: string): (r: string)
    decreases |s|
  {
    if |pat| == 0 then Interleave(s, rep)
    else if |s| < |pat| then s
    else if s[..|pat|] == pat then rep + ReplaceAll(s[|pat|..], pat, rep)
    else [s[0]] + ReplaceAll(s[1..], pat, rep)
  }

  /** A text that does not contain the pattern is returned unchanged. */
  lemma {:induction false} ReplaceAbsent(s: string, pat: string, rep: string)
    requires |pat| > 0 && !Contains(s, pat)
    ensures ReplaceAll(s, pat, rep) == s
    decreases |s|
  {
    if |s| >= |pat| {
      assert !OccursAt(s, pat, 0);
      assert s[..|pat|] != pat;
      if !Contains(s[1..], pat) {
        ReplaceAbsent(s[1..], pat, rep);
      } else {
        var j := IndexOf(s[1..], pat).value;
        assert s[1..][j..j + |pat|] == s[j + 1..j + 1 + |pat|];
        assert OccursAt(s, pat, j + 1);
        assert false;
      }
    }
  }

  /** `s.replace(s, rep)` is `rep`, also for the empty string. */
  lemma ReplaceWhole(s: string, rep: string)
    ensures ReplaceAll(s, s, rep) == rep
  {
    if |s| > 0 {
      assert s[..|s|] == s;
      assert ReplaceAll(s[|s|..], s, rep) == [];
    }
  }

  /** Replacing a pattern by itself changes nothing. */
  lemma {:induction false} ReplaceBySelf(s: string, pat: string)
    requires |pat| > 0
    ensures ReplaceAll(s, pat, pat) == s
    decreases |s|
  {
    if |s| >= |pat| {
      if s[..|pat|] == pat {
        ReplaceBySelf(s[|pat|..], pat);
        assert s == pat + s[|pat|..];
      } else {
        ReplaceBySelf(s[1..], pat);
        assert s == [s[0]] + s[1..];
      }
    }
  }

  // ---------------------------------------------------------------------
  // Trimming: Python str.strip, Go strings.TrimSpace

  function TrimLeft(lang: Lang, s: string): (r: string)
    ensures |r| <= |s|
    ensures r == [] || !IsSpace(lang, r[0])
    ensures forall i :: 0 <= i < |s| - |r| ==> IsSpace(lang, s[i])
  {
    if s != [] && IsSpace(lang, s[0]) then TrimLeft(lang, s[1..]) else s
  }

  function TrimRight(lang: Lang, s: string): (r: string)
    ensures |r| <= |s|
    ensures r == [] || !IsSpace(lang, r[|r| - 1])
    ensures forall i :: |r| <= i < |s| ==> IsSpace(lang, s[i])
  {
    if s != [] && IsSpace(lang, s[|s| - 1]) then TrimRight(lang, s[..|s| - 1]) else s
  }

  /** Python's `s.strip()` and Go's `strings.TrimSpace(s)`: the longest
      infix of `s` that neither starts nor ends with whitespace, once the
      whitespace around it is removed. */
  function Strip(lang: Lang, s: string): (r: string)
    ensures r == [] || (!IsSpace(lang, r[0]) && !IsSpace(lang, r[|r| - 1]))
  {
    var t := TrimLeft(lang, s);
    var r := TrimRight(lang, t);
    TrimRightPrefix(lang, t);
    assert r != [] ==> r[0] == t[0];
    r
  }

  /** `TrimLeft` keeps a suffix of the text. */
  lemma {:induction false} TrimLeftSuffix(lang: Lang, s: string)
    ensures TrimLeft(lang, s) == s[|s| - |TrimLeft(lang, s)|..]
    decreases |s|
  {
    if s != [] && IsSpace(lang, s[0]) {
      TrimLeftSuffix(lang, s[1..]);
      assert s[1..][|s| - 1 - |TrimLeft(lang, s[1..])|..] == s[|s| - |TrimLeft(lang, s[1..])|..];
    }
  }

  /** `TrimRight` keeps a prefix of the text. */
  lemma {:induction false} TrimRightPrefix(lang: Lang, s: string)
    ensures TrimRight(lang, s) == s[..|TrimRight(lang, s)|]
    decreases |s|
  {
    if s != [] && IsSpace(lang, s[|s| - 1]) {
      TrimRightPrefix(lang, s[..|s| - 1]);
      assert s[..|s| - 1][..|TrimRight(lang, s[..|s| - 1])|] == s[..|TrimRight(lang, s[..|s| - 1])|];
    }
  }

  /** `Strip` keeps an infix of the text: it starts where `TrimLeft` does. */
  lemma StripInfix(lang: Lang, s: string)
    ensures |s| - |TrimLeft(lang, s)| + |Strip(lang, s)| <= |s|
    ensures Strip(lang, s) == s[|s| - |TrimLeft(lang, s)|..|s| - |TrimLeft(lang, s)| + |Strip(lang, s)|]
  {
    var t := TrimLeft(lang, s);
    TrimLeftSuffix(lang, s);
    TrimRightPrefix(lang, t);
    InfixOfSuffix(s, t, TrimRight(lang, t));
  }

  /** A prefix of a suffix is an infix. */
  lemma InfixOfSuffix(s: string, t: string, r: string)
    requires |t| <= |s| && t == s[|s| - |t|..] && |r| <= |t| && r == t[..|r|]
    ensures r == s[|s| - |t|..|s| - |t| + |r|]
  {
  }

  /** What `Strip` removes is whitespace on both sides of the result. */
  lemma StripRemovesSpace(lang: Lang, s: string)
    ensures forall i :: 0 <= i < |s| - |TrimLeft(lang, s)| ==> IsSpace(lang, s[i])
    ensures forall i :: |s| - |TrimLeft(lang, s)| + |Strip(lang, s)| <= i < |s| ==> IsSpace(lang, s[i])
  {
    var t := TrimLeft(lang, s);
    TrimLeftSuffix(lang, s);
    TrimRightTail(lang, s, t, |s| - |t|, TrimRight(lang, t));
  }

  lemma TrimRightTail(lang: Lang, s: string, t: string, k: nat, r: string)
    requires k <= |s| && t == s[k..] && r == TrimRight(lang, t)
    ensures forall i :: k + |r| <= i < |s| ==> IsSpace(lang, s[i])
  {
    forall i | k + |r| <= i < |s| ensures IsSpace(lang, s[i]) {
      assert s[i] == t[i - k];
    }
  }

  /** No character of `s` is one of the information separators U+001C to
      U+001F, the only characters whose whitespace the two languages judge
      differently. */
  predicate NoInfoSeparator(s: string) {
    forall i :: 0 <= i < |s| ==> !('\U{001C}' <= s[i] <= '\U{001F}')
  }

  lemma NoInfoSeparatorInfix(s: string, i: nat, j: nat)
    requires NoInfoSeparator(s) && i <= j <= |s|
    ensures NoInfoSeparator(s[i..j])
  {
    assert forall k :: 0 <= k < j - i ==> s[i..j][k] == s[i + k];
  }

  /** Go's whitespace is Python's without the information separators. */
  lemma GoSpaceIsPythonSpace(c: char)
    ensures IsSpace(Go, c) <==> IsSpace(Python, c) && !('\U{001C}' <= c <= '\U{001F}')
  {
  }

  /** Without information separators, Python's `strip` and Go's
      `strings.TrimSpace` give the same text. */
  lemma {:induction false} StripAgrees(s: string)
    requires NoInfoSeparator(s)
    ensures Strip(Go, s) == Strip(Python, s)
  {
    TrimLeftAgrees(s);
    var t := TrimLeft(Go, s);
    TrimLeftSuffix(Go, s);
    NoInfoSeparatorInfix(s, |s| - |t|, |s|);
    TrimRightAgrees(t);
  }

  lemma {:induction false} TrimLeftAgrees(s: string)
    requires NoInfoSeparator(s)
    ensures TrimLeft(Go, s) == TrimLeft(Python, s)
    decreases |s|
  {
    if s != [] {
      NoInfoSeparatorInfix(s, 1, |s|);
      TrimLeftAgrees(s[1..]);
    }
  }

  lemma {:induction false} TrimRightAgrees(s: string)
    requires NoInfoSeparator(s)
    ensures TrimRight(Go, s) == TrimRight(Python, s)
    decreases |s|
  {
    if s != [] {
      NoInfoSeparatorInfix(s, 0, |s| - 1);
      TrimRightAgrees(s[..|s| - 1]);
    }
  }

  /** Neither starts nor ends with whitespace. */
  predicate Trimmed(lang: Lang, s: string) {
    s == [] || (!IsSpace(lang, s[0]) && !IsSpace(lang, s[|s| - 1]))
  }

  /** Stripping changes exactly the texts that are not already trimmed. */
  lemma StripNoSpace(lang: Lang, s: string)
    requires Trimmed(lang, s)
    ensures Strip(lang, s) == s
  {
  }

  lemma StripIdempotent(lang: Lang, s: string)
    ensures Strip(lang, Strip(lang, s)) == Strip(lang, s)
  {
    StripNoSpace(lang, Strip(lang, s));
  }

  // ---------------------------------------------------------------------
  // Splitting

  /** Python's `s.split(sep, 1)` when `sep` occurs: the text before the first
      occurrence and the text after it. */
  function SplitFirst(s: string, sep: string): (r: (string, string))
    requires Contains(s, sep)
    ensures s == r.0 + sep + r.1
    ensures forall j :: 0 <= j < |r.0| ==> !OccursAt(s, sep, j)
  {
    var i := IndexOf(s, sep).value;
    assert s == s[..i] + s[i..i + |sep|] + s[i + |sep|..];
    (s[..i], s[i + |sep|..])
  }

  lemma SliceThree(s: string, i: nat, j: nat)
    requires i <= j <= |s|
    ensures s == s[..i] + s[i..j] + s[j..]
  {
  }

  /** Joins parts with a separator (Go's `strings.Join`). */
  function Join(parts: seq<string>, sep: string): string {
    if parts == [] then []
    else if |parts| == 1 then parts[0]
    else parts[0] + sep + Join(parts[1..], sep)
  }

  /** Go's `strings.Split(s, sep)` for a non-empty separator: cut at every
      non-overlapping occurrence, leftmost first. */
  function SplitAll(s: string, sep: string): (r: seq<string>)
    requires |sep| > 0
    decreases |s|
    ensures |r| >= 1
  {
    var o := IndexOf(s, sep);
    if o.None? then [s] else [s[..o.value]] + SplitAll(s[o.value + |sep|..], sep)
  }

  /** No part of a split contains the separator. */
  lemma {:induction false} SplitAllParts(s: string, sep: string)
    requires |sep| > 0
    ensures forall i :: 0 <= i < |SplitAll(s, sep)| ==> !Contains(SplitAll(s, sep)[i], sep)
    decreases |s|
  {
    var o := IndexOf(s, sep);
    if o.Some? {
      var i := o.value;
      var rest := s[i + |sep|..];
      SplitAllParts(rest, sep);
      forall j | 0 <= j ensures !OccursAt(s[..i], sep, j) {
        if j + |sep| <= i {
          assert s[..i][j..j + |sep|] == s[j..j + |sep|];
          assert !OccursAt(s, sep, j);
        }
      }
    }
  }

  /** Splitting and joining again gives back the original text. */
  lemma {:induction false} SplitJoin(s: string, sep: string)
    requires |sep| > 0
    ensures Join(SplitAll(s, sep), sep) == s
    decreases |s|
  {
    var o := IndexOf(s, sep);
    if o.Some? {
      var i := o.value;
      var rest := s[i + |sep|..];
      SplitJoin(rest, sep);
      var tail := SplitAll(rest, sep);
      JoinCons(s[..i], tail, sep);
      assert OccursAt(s, sep, i);
      SliceThree(s, i, i + |sep|);
    }
  }

  lemma JoinCons(a: string, tail: seq<string>, sep: string)
    requires |tail| >= 1
    ensures Join([a] + tail, sep) == a + sep + Join(tail, sep)
  {
    assert ([a] + tail)[1..] == tail;
  }

  /** The first part of Go's split is the text before the first occurrence,
      the same text Python's `split(sep, 1)` gives. */
  lemma SplitAllFirst(s: string, sep: string)
    requires |sep| > 0 && Contains(s, sep)
    ensures |SplitAll(s, sep)| >= 2
    ensures SplitAll(s, sep)[0] == SplitFirst(s, sep).0
    ensures SplitFirst(s, sep).1 == Join(SplitAll(s, sep)[1..], sep)
  {
    var i := IndexOf(s, sep).value;
    var rest := s[i + |sep|..];
    SplitJoin(rest, sep);
    assert SplitAll(s, sep) == [s[..i]] + SplitAll(rest, sep);
  }

  /** The first word of a text that starts with a non-space character. */
  function Word(lang: Lang, s: string): (w: string)
    ensures |w| <= |s| && w == s[..|w|] && NoSpace(lang, w)
    ensures |w| < |s| ==> IsSpace(lang, s[|w|])
    ensures s != [] && !IsSpace(lang, s[0]) ==> |w| > 0
  {
    if s == [] || IsSpace(lang, s[0]) then [] else [s[0]] + Word(lang, s[1..])
  }

  /** The characters of `s` that are not whitespace, in order. */
  function NonSpace(lang: Lang, s: string): string {
    if s == [] then [] else Kept(lang, s[0]) + NonSpace(lang, s[1..])
  }

  /** A character as `NonSpace` keeps it: dropped when it is whitespace. */
  function Kept(lang: Lang, c: char): string {
    if IsSpace(lang, c) then [] else [c]
  }

  function Concat(ws: seq<string>): string {
    if ws == [] then [] else ws[0] + Concat(ws[1..])
  }

  lemma {:induction false} NonSpaceAppend(lang: Lang, a: string, b: string)
    ensures NonSpace(lang, a + b) == NonSpace(lang, a) + NonSpace(lang, b)
    decreases |a|
  {
    if a == [] {
      assert a + b == b;
    } else {
      NonSpaceAppend(lang, a[1..], b);
      assert (a + b)[0] == a[0];
      assert (a + b)[1..] == a[1..] + b;
      Associative(Kept(lang, a[0]), NonSpace(lang, a[1..]), NonSpace(lang, b));
    }
  }

  lemma Associative(x: string, y: string, z: string)
    ensures x + (y + z) == (x + y) + z
  {
  }

  lemma {:induction false} NonSpaceOfSpaces(lang: Lang, s: string)
    requires forall i :: 0 <= i < |s| ==> IsSpace(lang, s[i])
    ensures NonSpace(lang, s) == []
    decreases |s|
  {
    if s != [] { NonSpaceOfSpaces(lang, s[1..]); }
  }

  lemma {:induction false} NonSpaceOfWord(lang: Lang, s: string)
    requires NoSpace(lang, s)
    ensures NonSpace(lang, s) == s
    decreases |s|
  {
    if s != [] { NonSpaceOfWord(lang, s[1..]); }
  }

  /** Python's `s.split()` and Go's `strings.Fields(lang, s)`: the maximal runs of
      non-whitespace characters. Every field is a non-empty word, and the
      fields together hold exactly the non-space characters of `s`. */
  function Fields(lang: Lang, s: string): (r: seq<string>)
    decreases |s|
    ensures forall f :: f in r ==> |f| > 0 && NoSpace(lang, f)
  {
    var t := TrimLeft(lang, s);
    if t == [] then []
    else
      var w := Word(lang, t);
      [w] + Fields(lang, t[|w|..])
  }

  /** The fields hold exactly the non-space characters of the text. */
  lemma {:induction false} FieldsKeepText(lang: Lang, s: string)
    ensures Concat(Fields(lang, s)) == NonSpace(lang, s)
    decreases |s|
  {
    var t := TrimLeft(lang, s);
    LeadingSpaceDropped(lang, s);
    if t != [] {
      var w := Word(lang, t);
      var rest := t[|w|..];
      FieldsKeepText(lang, rest);
      WordDropped(lang, t);
      assert Fields(lang, s) == [w] + Fields(lang, rest);
      ConcatCons(w, Fields(lang, rest));
    }
  }

  lemma LeadingSpaceDropped(lang: Lang, s: string)
    ensures NonSpace(lang, s) == NonSpace(lang, TrimLeft(lang, s))
  {
    var t := TrimLeft(lang, s);
    TrimLeftSuffix(lang, s);
    var lead := s[..|s| - |t|];
    assert NonSpace(lang, lead) == [] by {
      assert forall i :: 0 <= i < |lead| ==> lead[i] == s[i];
      NonSpaceOfSpaces(lang, lead);
    }
    assert s == lead + t;
    NonSpaceAppend(lang, lead, t);
  }

  lemma WordDropped(lang: Lang, t: string)
    ensures NonSpace(lang, t) == Word(lang, t) + NonSpace(lang, t[|Word(lang, t)|..])
  {
    var w := Word(lang, t);
    NonSpaceOfWord(lang, w);
    NonSpaceAppend(lang, w, t[|w|..]);
    assert t == w + t[|w|..];
  }

  lemma ConcatCons(w: string, ws: seq<string>)
    ensures Concat([w] + ws) == w + Concat(ws)
  {
    assert ([w] + ws)[1..] == ws;
  }

  lemma {:induction false} WordOfPrefix(lang: Lang, a: string, s: string)
    requires NoSpace(lang, a) && (s == [] || IsSpace(lang, s[0]))
    ensures Word(lang, a + s) == a
    decreases |a|
  {
    if a == [] {
      assert a + s == s;
    } else {
      assert (a + s)[0] == a[0] && (a + s)[1..] == a[1..] + s;
      WordOfPrefix(lang, a[1..], s);
    }
  }

  /** A word followed by a space is the first field, whatever follows. */
  lemma FieldsCons(lang: Lang, a: string, rest: string)
    requires |a| > 0 && NoSpace(lang, a)
    ensures Fields(lang, a + " " + rest) == [a] + Fields(lang, rest)
  {
    var t := a + " " + rest;
    assert TrimLeft(lang, t) == t;
    assert t == a + (" " + rest);
    WordOfPrefix(lang, a, " " + rest);
    assert t[|a|..] == " " + rest;
    assert (" " + rest)[1..] == rest;
    assert TrimLeft(lang, " " + rest) == TrimLeft(lang, rest);
  }

  /** The fields of a lone word are that word. */
  lemma FieldsOfWord(lang: Lang, a: string)
    requires |a| > 0 && NoSpace(lang, a)
    ensures Fields(lang, a) == [a]
  {
    assert TrimLeft(lang, a) == a by {
      assert !IsSpace(lang, a[0]);
    }
    assert Word(lang, a) == a by {
      WordOfPrefix(lang, a, []);
      assert a + [] == a;
    }
    assert Fields(lang, a[|a|..]) == [] by {
      assert a[|a|..] == [];
    }
  }

  // ---------------------------------------------------------------------
  // Counting and searching characters

  /** Python's `s.count(c)` for a one-character `c`. */
  function Count(s: string, c: char): (n: nat)
    ensures n <= |s|
  {
    if s == [] then 0 else Count(s[..|s| - 1], c) + (if s[|s| - 1] == c then 1 else 0)
  }

  lemma {:induction false} CountAppend(a: string, b: string, c: char)
    ensures Count(a + b, c) == Count(a, c) + Count(b, c)
    decreases |b|
  {
    if b == [] {
      assert a + b == a;
    } else {
      CountAppend(a, b[..|b| - 1], c);
      assert (a + b)[..|a + b| - 1] == a + b[..|b| - 1];
    }
  }

  /** A longer prefix holds at least as many occurrences. */
  lemma CountPrefixMonotone(s: string, i: nat, j: nat, c: char)
    requires i <= j <= |s|
    ensures Count(s[..i], c) <= Count(s[..j], c)
  {
    assert s[..j] == s[..i] + s[i..j];
    CountAppend(s[..i], s[i..j], c);
  }

  lemma {:induction false} CountAbsent(s: string, c: char)
    requires c !in s
    ensures Count(s, c) == 0
    decreases |s|
  {
    if s != [] {
      assert s[..|s| - 1] <= s;
      CountAbsent(s[..|s| - 1], c);
    }
  }

  /** The last position of `c` in `s`, Python's `s.rfind(c)`. */
  function LastIndexOfChar(s: string, c: char): (r: Option<nat>)
    ensures r.Some? ==> r.value < |s| && s[r.value] == c && forall j :: r.value < j < |s| ==> s[j] != c
    ensures r.None? ==> c !in s
  {
    if s == [] then None
    else if s[|s| - 1] == c then Some(|s| - 1)
    else
      var r := LastIndexOfChar(s[..|s| - 1], c);
      assert s == s[..|s| - 1] + [s[|s| - 1]];
      r
  }

  // ---------------------------------------------------------------------
  // Case and decimal formatting

  function LowerChar(c: char): char {
    if 'A' <= c <= 'Z' then (c as int - 'A' as int + 'a' as int) as char else c
  }

  /** ASCII lower-casing, character by character. */
  function Lower(s: string): (r: string)
    ensures |r| == |s| && forall i :: 0 <= i < |s| ==> r[i] == LowerChar(s[i])
  {
    seq(|s|, i requires 0 <= i < |s| => LowerChar(s[i]))
  }

  lemma LowerSlice(s: string, i: nat, j: nat)
    requires i <= j <= |s|
    ensures Lower(s)[i..j] == Lower(s[i..j])
  {
  }

  /** The character Python's `re.IGNORECASE` compares in place of `c` when
      the pattern is ASCII: ASCII capitals are lowered, and the four
      non-ASCII characters the engine equates with an ASCII letter map to
      it (U+0130 and U+0131 to `i`, U+017F to `s`, the Kelvin sign U+212A
      to `k`). Every other character stands for itself. */
  function FoldChar(c: char): char {
    if c == '\U{0130}' || c == '\U{0131}' then 'i'
    else if c == '\U{017F}' then 's'
    else if c == '\U{212A}' then 'k'
    else LowerChar(c)
  }

  /** Case folding, character by character. */
  function Fold(s: string): (r: string)
    ensures |r| == |s| && forall i :: 0 <= i < |s| ==> r[i] == FoldChar(s[i])
  {
    seq(|s|, i requires 0 <= i < |s| => FoldChar(s[i]))
  }

  lemma FoldSlice(s: string, i: nat, j: nat)
    requires i <= j <= |s|
    ensures Fold(s)[i..j] == Fold(s[i..j])
  {
  }

  /** Against an ASCII pattern character `y`, a text character `c` matches
      up to case exactly when it is `y` up to ASCII case or one of the
      four non-ASCII characters equated with `y`'s letter. */
  lemma FoldAgainstAscii(c: char, y: char)
    requires y <= '\U{007F}'
    ensures FoldChar(c) == FoldChar(y) <==>
      || LowerChar(c) == LowerChar(y)
      || (LowerChar(y) == 'i' && (c == '\U{0130}' || c == '\U{0131}'))
      || (LowerChar(y) == 's' && c == '\U{017F}')
      || (LowerChar(y) == 'k' && c == '\U{212A}')
  {
  }

  /** On ASCII text the fold is ASCII lower-casing. */
  lemma FoldAscii(s: string)
    requires forall i :: 0 <= i < |s| ==> s[i] <= '\U{007F}'
    ensures Fold(s) == Lower(s)
  {
  }

  function DigitChar(d: nat): (c: char)
    requires d < 10
    ensures '0' <= c <= '9'
  {
    ('0' as int + d) as char
  }

  function DigitValue(c: char): nat {
    if '0' <= c <= '9' then c as int - '0' as int else 0
  }

  predicate IsDigit(c: char) {
    '0' <= c <= '9'
  }

  /** The value of a string of decimal digits. */
  function DigitsValue(s: string): nat {
    if s == [] then 0 else DigitsValue(s[..|s| - 1]) * 10 + DigitValue(s[|s| - 1])
  }

  /** Decimal rendering of a natural number (Python's `str(n)`, Go's `%d`):
      non-empty, all digits, no leading zero, and it reads back as `n`. */
  function NatToString(n: nat): (r: string)
    ensures |r| >= 1 && (forall i :: 0 <= i < |r| ==> IsDigit(r[i]))
    ensures |r| > 1 ==> r[0] != '0'
    ensures DigitsValue(r) == n
  {
    if n < 10 then [DigitChar(n)]
    else
      var r := NatToString(n / 10) + [DigitChar(n % 10)];
      assert r[..|r| - 1] == NatToString(n / 10);
      assert DigitValue(r[|r| - 1]) == n % 10;
      assert DigitsValue(r) == (n / 10) * 10 + n % 10;
      r
  }

  /** Decimal rendering of an integer, with a leading minus sign. */
  function IntToString(i: int): (r: string)
    ensures |r| >= 1
    ensures (r[0] == '-') <==> i < 0
  {
    if i < 0 then "-" + NatToString(-i) else NatToString(i)
  }

  /** Zero-padded two-digit rendering, as `strftime` writes `%m`, `%d`, `%H`. */
  function Pad2(n: nat): (r: string)
    requires n < 100
    ensures |r| == 2 && IsDigit(r[0]) && IsDigit(r[1])
    ensures DigitsValue(r) == n
  {
    var r := [DigitChar(n / 10), DigitChar(n % 10)];
    assert r[..1] == [DigitChar(n / 10)];
    assert r[..1][..0] == [];
    assert DigitsValue(r[..1]) == n / 10;
    assert DigitsValue(r) == (n / 10) * 10 + n % 10;
    r
  }
}
