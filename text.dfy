/**
 * The Python string operations the engine, the harness and the report rely on:
 * `strip`, `lower`, `upper`, `split(maxsplit=1)`, `split("\n")[0]`,
 * `split("/")[-1]`, `replace`, `endswith`, `in` / `index` and `title`.
 * Only ASCII letters have a case and only ASCII whitespace is whitespace here.
 */
module Text {
  import opened Wrappers

  /** Whitespace as `str.strip()` and `str.split()` see it, restricted to ASCII:
      tab, line feed, vertical tab, form feed, carriage return, the four
      information separators 0x1C-0x1F, and space. */
  predicate IsSpace(c: char) {
    (9 <= c as int <= 13) || (28 <= c as int <= 32)
  }

  predicate IsBacktick(c: char) {
    c == '`'
  }

  predicate NoSpace(s: string) {
    forall i :: 0 <= i < |s| ==> !IsSpace(s[i])
  }

  predicate AllSpace(s: string) {
    forall i :: 0 <= i < |s| ==> IsSpace(s[i])
  }

  // ---------------------------------------------------------------------------
  // strip

  /** Drops the leading characters that satisfy `drop`. */
  function TrimStart(s: string, drop: char -> bool): (r: string)
    ensures |r| <= |s|
    ensures forall i :: 0 <= i < |s| - |r| ==> drop(s[i])
    ensures r != [] ==> !drop(r[0])
  {
    if s != [] && drop(s[0]) then TrimStart(s[1..], drop) else s
  }

  /** What `TrimStart` keeps is a suffix of its input. */
  lemma {:induction false} TrimStartIsSuffix(s: string, drop: char -> bool)
    ensures TrimStart(s, drop) == s[|s| - |TrimStart(s, drop)|..]
  {
    if s != [] && drop(s[0]) {
      TrimStartIsSuffix(s[1..], drop);
    }
  }

  /** Drops the trailing characters that satisfy `drop`. */
  function TrimEnd(s: string, drop: char -> bool): (r: string)
    ensures |r| <= |s| && r == s[..|r|]
    ensures forall i :: |r| <= i < |s| ==> drop(s[i])
    ensures r != [] ==> !drop(r[|r| - 1])
  {
    if s != [] && drop(s[|s| - 1]) then TrimEnd(s[..|s| - 1], drop) else s
  }

  /** `s.strip(chars)`: both ends, with `drop` saying which characters go. */
  function StripBy(s: string, drop: char -> bool): (r: string)
    ensures |r| <= |s|
    ensures r != [] ==> !drop(r[0]) && !drop(r[|r| - 1])
    ensures (s == [] || (!drop(s[0]) && !drop(s[|s| - 1]))) ==> r == s
  {
    TrimStartIsSuffix(TrimEnd(s, drop), drop);
    TrimStart(TrimEnd(s, drop), drop)
  }

  /** `s.strip()` */
  function Strip(s: string): string {
    StripBy(s, IsSpace)
  }

  // ---------------------------------------------------------------------------
  // case

  function LowerChar(c: char): char {
    if 'A' <= c <= 'Z' then (c as int + 32) as char else c
  }

  function UpperChar(c: char): char {
    if 'a' <= c <= 'z' then (c as int - 32) as char else c
  }

  /** `s.lower()` */
  function Lower(s: string): string {
    seq(|s|, i requires 0 <= i < |s| => LowerChar(s[i]))
  }

  /** `s.upper()` */
  function Upper(s: string): string {
    seq(|s|, i requires 0 <= i < |s| => UpperChar(s[i]))
  }

  predicate IsCased(c: char) {
    'a' <= c <= 'z' || 'A' <= c <= 'Z'
  }

  /** `s.title()`: a cased character is upper-cased when the character before it
      is not cased, and lower-cased when it is. */
  function Title(s: string): string {
    seq(|s|, i requires 0 <= i < |s| =>
      if !IsCased(s[i]) then s[i]
      else if i > 0 && IsCased(s[i - 1]) then LowerChar(s[i])
      else UpperChar(s[i]))
  }

  /** `title` keeps the length and which characters are cased, leaves the
      others alone, upper-cases exactly the cased characters that start a word
      and lower-cases the rest. */
  lemma TitleCases(s: string)
    ensures |Title(s)| == |s|
    ensures forall i :: 0 <= i < |s| ==> IsCased(Title(s)[i]) == IsCased(s[i])
    ensures forall i :: 0 <= i < |s| && !IsCased(s[i]) ==> Title(s)[i] == s[i]
    ensures forall i :: 0 <= i < |s| && IsCased(s[i]) ==>
              (Title(s)[i] == UpperChar(s[i]) <==> i == 0 || !IsCased(s[i - 1]))
    ensures forall i :: 0 < i < |s| && IsCased(s[i]) && IsCased(s[i - 1]) ==> Title(s)[i] == LowerChar(s[i])
  {
    var t := Title(s);
    forall i | 0 <= i < |s|
      ensures IsCased(t[i]) == IsCased(s[i])
      ensures !IsCased(s[i]) ==> t[i] == s[i]
      ensures IsCased(s[i]) ==> (t[i] == UpperChar(s[i]) <==> i == 0 || !IsCased(s[i - 1]))
    {
      if IsCased(s[i]) {
        CasedChar(s[i]);
      }
    }
  }

  /** Both cases of a cased character are cased, and they differ. */
  lemma CasedChar(c: char)
    requires IsCased(c)
    ensures IsCased(UpperChar(c)) && IsCased(LowerChar(c)) && UpperChar(c) != LowerChar(c)
  {
  }

  /** `s.replace(a, b)` for single characters. */
  function ReplaceChar(s: string, a: char, b: char): string {
    seq(|s|, i requires 0 <= i < |s| => if s[i] == a then b else s[i])
  }

  // ---------------------------------------------------------------------------
  // searching

  predicate OccursAt(s: string, pat: string, i: nat) {
    i + |pat| <= |s| && s[i..i + |pat|] == pat
  }

  /** The first occurrence of `pat` in `s` at or after `from`. */
  function FindFrom(s: string, pat: string, from: nat): (r: Option<nat>)
    requires from <= |s|
    decreases |s| - from
    ensures r.Some? ==> from <= r.value && OccursAt(s, pat, r.value)
    ensures r.Some? ==> forall j :: from <= j < r.value ==> !OccursAt(s, pat, j)
    ensures r.None? ==> forall j :: from <= j ==> !OccursAt(s, pat, j)
  {
    if OccursAt(s, pat, from) then Some(from)
    else if from == |s| then None
    else FindFrom(s, pat, from + 1)
  }

  /** `s.index(pat)`, or None where Python would raise. */
  function IndexOf(s: string, pat: string): Option<nat> {
    FindFrom(s, pat, 0)
  }

  /** `pat in s` */
  predicate Contains(s: string, pat: string) {
    IndexOf(s, pat).Some?
  }

  /** `s.endswith(suffix)` */
  predicate EndsWith(s: string, suffix: string) {
    |suffix| <= |s| && s[|s| - |suffix|..] == suffix
  }

  // ---------------------------------------------------------------------------
  // splitting

  /** `s.split("\n")[0]`: everything before the first line feed. */
  function FirstLine(s: string): (r: string)
    ensures |r| <= |s| && r == s[..|r|]
    ensures '\n' !in r
    ensures |r| < |s| ==> s[|r|] == '\n'
  {
    match IndexOf(s, "\n")
    case Some(i) =>
      assert OccursAt(s, "\n", i);
      assert forall j :: 0 <= j < i ==> s[j] != '\n' by {
        forall j | 0 <= j < i ensures s[j] != '\n' {
          assert !OccursAt(s, "\n", j);
        }
      }
      s[..i]
    case None =>
      assert forall j :: 0 <= j < |s| ==> s[j] != '\n' by {
        forall j | 0 <= j < |s| ensures s[j] != '\n' {
          assert !OccursAt(s, "\n", j);
        }
      }
      s
  }

  /** `s.split(sep)[-1]`: the text after the last `sep`, or all of `s`. */
  function AfterLast(s: string, sep: char): (r: string)
    ensures |r| <= |s| && r == s[|s| - |r|..]
    ensures sep !in r
    ensures |r| < |s| ==> s[|s| - |r| - 1] == sep
  {
    if s == [] then []
    else if s[|s| - 1] == sep then []
    else AfterLast(s[..|s| - 1], sep) + [s[|s| - 1]]
  }

  /** The text after the last `sep` of a string that ends with `sep` and then
      a part without one is that part; a string without `sep` is all of it. */
  lemma {:induction false} AfterLastOfJoin(prefix: string, sep: char, part: string)
    requires sep !in part
    ensures AfterLast(prefix + [sep] + part, sep) == part
    ensures AfterLast(part, sep) == part
    decreases |part|
  {
    if part == [] {
      assert prefix + [sep] + part == prefix + [sep];
    } else {
      var init := part[..|part| - 1];
      assert prefix + [sep] + part == (prefix + [sep] + init) + [part[|part| - 1]];
      assert part == init + [part[|part| - 1]];
      AfterLastOfJoin(prefix, sep, init);
    }
  }

  /** The length of the first word: the index of the first whitespace, or |s|. */
  function WordEnd(s: string): (i: nat)
    ensures i <= |s| && NoSpace(s[..i])
    ensures i < |s| ==> IsSpace(s[i])
  {
    if s == [] || IsSpace(s[0]) then 0 else 1 + WordEnd(s[1..])
  }

  /** `s.split(maxsplit=1)` as (first word, rest), with "" for a missing word or rest. */
  function SplitOnce(s: string): (parts: (string, string))
    ensures NoSpace(parts.0)
    ensures parts.1 != [] ==> !IsSpace(parts.1[0])
    ensures parts.0 == [] <==> AllSpace(s)
    ensures parts.0 == [] ==> parts.1 == []
  {
    var t := TrimStart(s, IsSpace);
    var i := WordEnd(t);
    TrimStartIsSuffix(s, IsSpace);
    assert t == [] ==> AllSpace(s);
    assert t != [] ==> !IsSpace(s[|s| - |t|]);
    (t[..i], TrimStart(t[i..], IsSpace))
  }

  // ---------------------------------------------------------------------------
  // lemmas

  predicate All(s: string, p: char -> bool) {
    forall i :: 0 <= i < |s| ==> p(s[i])
  }

  lemma {:induction false} TrimStartConcat(a: string, b: string, drop: char -> bool)
    requires a != [] && !drop(a[0])
    ensures TrimStart(a + b, drop) == a + b
  {
  }

  lemma {:induction false} TrimEndAppend(a: string, b: string, drop: char -> bool)
    ensures TrimEnd(a + b, drop) == if All(b, drop) then TrimEnd(a, drop) else a + TrimEnd(b, drop)
    decreases |b|
  {
    if b == [] {
      assert a + b == a;
    } else if drop(b[|b| - 1]) {
      var b' := b[..|b| - 1];
      assert (a + b)[..|a + b| - 1] == a + b';
      TrimEndAppend(a, b', drop);
      if All(b', drop) {
        assert All(b, drop) by {
          forall i | 0 <= i < |b| ensures drop(b[i]) {
            if i < |b| - 1 { assert drop(b'[i]); }
          }
        }
      } else {
        var j :| 0 <= j < |b'| && !drop(b'[j]);
        assert !drop(b[j]);
      }
    } else {
      assert !drop((a + b)[|a + b| - 1]);
    }
  }

  lemma {:induction false} TrimStartLower(s: string)
    ensures Lower(TrimStart(s, IsSpace)) == TrimStart(Lower(s), IsSpace)
  {
    if s != [] && IsSpace(s[0]) {
      assert Lower(s)[1..] == Lower(s[1..]);
      TrimStartLower(s[1..]);
    }
  }

  lemma {:induction false} LowerAppend(a: string, b: string)
    ensures Lower(a + b) == Lower(a) + Lower(b)
  {
    assert |Lower(a + b)| == |Lower(a) + Lower(b)|;
    forall i | 0 <= i < |a + b| ensures Lower(a + b)[i] == (Lower(a) + Lower(b))[i] {
      if i < |a| { assert (a + b)[i] == a[i]; } else { assert (a + b)[i] == b[i - |a|]; }
    }
  }

  lemma {:induction false} WordEndAfterWord(w: string, rest: string)
    requires NoSpace(w)
    ensures WordEnd(w + rest) == if rest == [] || IsSpace(rest[0]) then |w| else |w| + WordEnd(rest)
    decreases |w|
  {
    if w == [] {
      assert w + rest == rest;
    } else {
      assert (w + rest)[1..] == w[1..] + rest;
      WordEndAfterWord(w[1..], rest);
    }
  }

  lemma {:induction false} TrimEndWord(w: string)
    requires w != [] && NoSpace(w)
    ensures TrimEnd(w + " ", IsSpace) == w
  {
    var ws := w + " ";
    assert ws[..|ws| - 1] == w;
    assert !IsSpace(w[|w| - 1]);
  }

  /** Stripping `w + " " + d` keeps the word and the separating space, unless
      `d` is all whitespace. */
  lemma {:induction false} StripWordThenRest(w: string, d: string)
    requires w != [] && NoSpace(w)
    ensures Strip(w + " " + d) == if AllSpace(d) then w else w + " " + TrimEnd(d, IsSpace)
  {
    var ws := w + " ";
    TrimEndAppend(ws, d, IsSpace);
    if AllSpace(d) {
      assert All(d, IsSpace);
      TrimEndWord(w);
      assert TrimEnd(ws + d, IsSpace) == w;
      assert !IsSpace(w[0]);
    } else {
      assert !All(d, IsSpace);
      var e := TrimEnd(d, IsSpace);
      assert TrimEnd(ws + d, IsSpace) == ws + e;
      assert (ws + e)[0] == w[0];
      assert !IsSpace(w[0]);
      assert TrimStart(ws + e, IsSpace) == ws + e;
    }
  }

  /** A non-empty word without whitespace splits into itself and "". */
  lemma {:induction false} SplitSingleWord(w: string)
    requires w != [] && NoSpace(w)
    ensures SplitOnce(w) == (w, [])
  {
    WordEndAfterWord(w, []);
    assert w + [] == w;
  }

  /** A word, one space and a rest split into the word and the rest without its
      leading whitespace. */
  lemma {:induction false} SplitWordThenRest(w: string, e: string)
    requires w != [] && NoSpace(w)
    ensures SplitOnce(w + " " + e) == (w, TrimStart(e, IsSpace))
  {
    var t := w + " " + e;
    assert t == w + (" " + e);
    TrimStartConcat(w, " " + e, IsSpace);
    WordEndAfterWord(w, " " + e);
    assert t[..|w|] == w;
    assert t[|w|..] == " " + e;
    assert (" " + e)[1..] == e;
  }

  lemma {:induction false} LowerKeepsSpace(w: string)
    ensures |Lower(w)| == |w|
    ensures NoSpace(w) ==> NoSpace(Lower(w))
  {
    if NoSpace(w) {
      forall i | 0 <= i < |w| ensures !IsSpace(Lower(w)[i]) { assert !IsSpace(w[i]); }
    }
  }

  lemma {:induction false} LowerWordThenRest(w: string, e: string)
    ensures Lower(w + " " + e) == Lower(w) + " " + Lower(e)
  {
    LowerAppend(w + " ", e);
    LowerAppend(w, " ");
    assert Lower(" ") == " ";
  }

  lemma {:induction false} StripAllSpace(d: string)
    requires AllSpace(d)
    ensures TrimEnd(d, IsSpace) == [] && Strip(d) == []
  {
  }

  lemma {:induction false} ParseWordAlone(w: string, d: string)
    requires w != [] && NoSpace(w) && AllSpace(d)
    ensures SplitOnce(Lower(Strip(w + " " + d))) == (Lower(w), Lower(Strip(d)))
  {
    var c := Lower(Strip(w + " " + d));
    assert c == Lower(w) by {
      StripWordThenRest(w, d);
    }
    LowerKeepsSpace(w);
    SplitSingleWord(Lower(w));
    assert SplitOnce(c) == (Lower(w), []);
    assert Lower(Strip(d)) == [] by {
      StripAllSpace(d);
    }
  }

  lemma {:induction false} ParseWordAndArgument(w: string, d: string)
    requires w != [] && NoSpace(w) && !AllSpace(d)
    ensures SplitOnce(Lower(Strip(w + " " + d))) == (Lower(w), Lower(Strip(d)))
  {
    StripWordThenRest(w, d);
    LowerKeepsSpace(w);
    var e := TrimEnd(d, IsSpace);
    var c := Lower(Strip(w + " " + d));
    LowerWordThenRest(w, e);
    assert c == Lower(w) + " " + Lower(e);
    SplitWordThenRest(Lower(w), Lower(e));
    assert SplitOnce(c) == (Lower(w), TrimStart(Lower(e), IsSpace));
    TrimStartLower(e);
  }

  /** Parsing `w + " " + d` after `strip().lower()` and `split(maxsplit=1)` yields
      the word `w` and the stripped, lower-cased `d`: whatever `d` holds, it is
      exactly what the first word's argument becomes. */
  lemma {:induction false} ParseWordThenRest(w: string, d: string)
    requires w != [] && NoSpace(w)
    ensures SplitOnce(Lower(Strip(w + " " + d))) == (Lower(w), Lower(Strip(d)))
  {
    if AllSpace(d) {
      ParseWordAlone(w, d);
    } else {
      ParseWordAndArgument(w, d);
    }
  }

  lemma {:induction false} WordEndPlain(s: string)
    requires NoSpace(s)
    ensures WordEnd(s) == |s|
    decreases |s|
  {
    if s != [] {
      WordEndPlain(s[1..]);
    }
  }

  /** A string with no surrounding whitespace strips to itself, and a string
      without upper-case ASCII letters lowers to itself. */
  lemma {:induction false} PlainWordIsUnchanged(s: string)
    requires s != [] && !IsSpace(s[0]) && !IsSpace(s[|s| - 1])
    requires forall i :: 0 <= i < |s| ==> !('A' <= s[i] <= 'Z')
    ensures Lower(Strip(s)) == s
  {
  }

  /** `strip` only removes characters: what is left was already there. */
  lemma StripByKeepsChars(s: string, drop: char -> bool)
    ensures forall c :: c in StripBy(s, drop) ==> c in s
  {
    var t := TrimEnd(s, drop);
    var r := StripBy(s, drop);
    TrimStartIsSuffix(t, drop);
    assert r == s[|t| - |r|..|t|];
  }

  /** A slice of a string without `pat` has no `pat` either. */
  lemma SliceKeepsAbsence(s: string, pat: string, a: nat, b: nat)
    requires a <= b <= |s| && !Contains(s, pat)
    ensures !Contains(s[a..b], pat)
  {
    assert FindFrom(s, pat, 0).None?;
    var t := s[a..b];
    forall j: nat
      ensures !OccursAt(t, pat, j)
    {
      if j + |pat| <= |t| {
        forall i | j <= i < j + |pat|
          ensures t[i] == s[a + i]
        {
        }
        assert t[j..j + |pat|] == s[a + j..a + j + |pat|];
        assert !OccursAt(s, pat, a + j);
      }
    }
  }

  /** `strip` cannot create an occurrence of `pat`. */
  lemma StripByKeepsAbsence(s: string, drop: char -> bool, pat: string)
    requires !Contains(s, pat)
    ensures !Contains(StripBy(s, drop), pat)
  {
    var t := TrimEnd(s, drop);
    var r := StripBy(s, drop);
    TrimStartIsSuffix(t, drop);
    assert r == s[|t| - |r|..|t|];
    SliceKeepsAbsence(s, pat, |t| - |r|, |t|);
  }

  /** Stripping a string that starts with a part kept at both of its ends only
      trims what follows that part. */
  lemma StripByHead(p: string, q: string, drop: char -> bool)
    requires p != [] && !drop(p[0]) && !drop(p[|p| - 1])
    ensures StripBy(p + q, drop) == p + (if All(q, drop) then [] else TrimEnd(q, drop))
  {
    TrimEndAppend(p, q, drop);
    assert TrimEnd(p, drop) == p;
    var rest := if All(q, drop) then [] else TrimEnd(q, drop);
    assert TrimEnd(p + q, drop) == p + rest;
    TrimStartConcat(p, rest, drop);
  }

  /** Stripping keeps a head whose ends are kept. */
  lemma StripByKeepsHead(p: string, s: string, drop: char -> bool)
    requires p != [] && !drop(p[0]) && !drop(p[|p| - 1])
    requires |p| <= |s| && s[..|p|] == p
    ensures |p| <= |StripBy(s, drop)| && StripBy(s, drop)[..|p|] == p
  {
    assert s == p + s[|p|..];
    StripByHead(p, s[|p|..], drop);
  }

  /** The first line keeps a head without a line feed. */
  lemma FirstLineKeepsHead(p: string, s: string)
    requires '\n' !in p
    requires |p| <= |s| && s[..|p|] == p
    ensures |p| <= |FirstLine(s)| && FirstLine(s)[..|p|] == p
  {
    var line := FirstLine(s);
    assert forall k :: 0 <= k < |p| ==> s[k] == p[k];
    assert |p| <= |line|;
  }

  /** Dropping a run of dropped characters in front of a kept one leaves what
      follows the run. */
  lemma {:induction false} TrimStartAll(a: string, c: string, drop: char -> bool)
    requires All(a, drop) && (c == [] || !drop(c[0]))
    ensures TrimStart(a + c, drop) == c
    decreases |a|
  {
    if a == [] {
      assert a + c == c;
    } else {
      assert (a + c)[1..] == a[1..] + c;
      assert drop(a[0]);
      TrimStartAll(a[1..], c, drop);
    }
  }

  /** The first `<|` of a string that starts with a part without one, then
      `<|`, is the one after that part. */
  lemma FirstMarker(c: string, r: string)
    requires !Contains(c, "<|")
    ensures IndexOf(c + "<|" + r, "<|") == Some(|c|)
  {
    var s := c + "<|" + r;
    assert FindFrom(c, "<|", 0).None?;
    assert s[|c|..|c| + 2] == "<|";
    assert OccursAt(s, "<|", |c|);
    forall j: nat | j < |c|
      ensures !OccursAt(s, "<|", j)
    {
      assert s[j..j + 2] == [s[j], s[j + 1]];
      if j + 2 <= |c| {
        assert !OccursAt(c, "<|", j);
        assert c[j..j + 2] == [c[j], c[j + 1]];
        assert s[j] == c[j] && s[j + 1] == c[j + 1];
      } else {
        assert s[j + 1] == '<';
      }
    }
  }

  /** The text before the first `pat` holds no `pat`. */
  lemma PrefixBeforeFirst(s: string, pat: string, i: nat)
    requires pat != [] && IndexOf(s, pat) == Some(i)
    ensures i <= |s| && !Contains(s[..i], pat)
  {
    assert FindFrom(s, pat, 0) == Some(i);
    if Contains(s[..i], pat) {
      var j := IndexOf(s[..i], pat).value;
      assert OccursAt(s[..i], pat, j);
      assert j < i;
      assert s[..i][j..j + |pat|] == s[j..j + |pat|];
      assert OccursAt(s, pat, j);
      assert false;
    }
  }
}
