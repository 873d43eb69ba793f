/** The prompt box's word counter: `text.trim().split(/\s+/).filter(w => w.length > 0).length`,
    and a reference definition of the same number as the count of maximal non-space runs. */
module Words {

  /** The characters `String.prototype.trim` removes and the regular-expression escape
      `\s` matches, as one flat list: exactly ECMAScript's white space and line terminators. */
  predicate IsSpace(c: char)
    ensures IsSpace(c) <==> IsWhiteSpace(c) || IsLineTerminator(c)
  {
    || c == '\t' || c == '\n' || c == '\U{B}' || c == '\U{C}' || c == '\r'
    || c == ' ' || c == '\U{A0}' || c == '\U{1680}'
    || ('\U{2000}' <= c <= '\U{200A}')
    || c == '\U{2028}' || c == '\U{2029}' || c == '\U{202F}' || c == '\U{205F}'
    || c == '\U{3000}' || c == '\U{FEFF}'
  }

  /** Unicode's space separators (general category Zs). */
  predicate IsSpaceSeparator(c: char) {
    c in {' ', '\U{A0}', '\U{1680}', '\U{202F}', '\U{205F}', '\U{3000}'} || '\U{2000}' <= c <= '\U{200A}'
  }

  /** ECMA-262's WhiteSpace production: TAB, VT, FF, ZWNBSP and every space separator. */
  predicate IsWhiteSpace(c: char) {
    c in {'\U{9}', '\U{B}', '\U{C}', '\U{FEFF}'} || IsSpaceSeparator(c)
  }

  /** ECMA-262's LineTerminator production: LF, CR, LINE SEPARATOR and PARAGRAPH SEPARATOR. */
  predicate IsLineTerminator(c: char) {
    c in {'\U{A}', '\U{D}', '\U{2028}', '\U{2029}'}
  }

  /** Removes the maximal leading run of white space. */
  function TrimStart(s: string): (r: string)
    ensures |r| <= |s|
    ensures forall i :: 0 <= i < |r| ==> r[i] == s[|s| - |r| + i]
    ensures r == [] || !IsSpace(r[0])
    ensures forall i :: 0 <= i < |s| - |r| ==> IsSpace(s[i])
  {
    if s != [] && IsSpace(s[0]) then
      var r := TrimStart(s[1..]);
      assert forall i :: 1 <= i < |s| ==> s[i] == s[1..][i - 1];
      r
    else s
  }

  /** Removes the maximal trailing run of white space. */
  function TrimEnd(s: string): (r: string)
    ensures |r| <= |s|
    ensures forall i :: 0 <= i < |r| ==> r[i] == s[i]
    ensures r == [] || !IsSpace(r[|r| - 1])
    ensures forall i :: |r| <= i < |s| ==> IsSpace(s[i])
  {
    if s != [] && IsSpace(s[|s| - 1]) then
      var r := TrimEnd(s[..|s| - 1]);
      assert forall i :: 0 <= i < |s| - 1 ==> s[i] == s[..|s| - 1][i];
      r
    else s
  }

  /** `String.prototype.trim`: neither end of the result is white space. */
  function Trim(s: string): (r: string)
    ensures |r| <= |s|
    ensures r == [] || (!IsSpace(r[0]) && !IsSpace(r[|r| - 1]))
  {
    TrimEnd(TrimStart(s))
  }

  /** `trim()` keeps exactly the text between the leading and the trailing white-space
      runs: the result sits in `s` at offset `k`, and everything before and after it is
      white space. */
  lemma TrimInfix(s: string) returns (k: nat)
    ensures k + |Trim(s)| <= |s|
    ensures forall i :: 0 <= i < |Trim(s)| ==> Trim(s)[i] == s[k + i]
    ensures forall i :: 0 <= i < k ==> IsSpace(s[i])
    ensures forall i :: k + |Trim(s)| <= i < |s| ==> IsSpace(s[i])
  {
    var t := TrimStart(s);
    var r := TrimEnd(t);
    assert r == Trim(s);
    k := |s| - |t|;
    forall i | 0 <= i < |r|
      ensures r[i] == s[k + i]
    {
      assert r[i] == t[i];
    }
    forall i | k + |r| <= i < |s|
      ensures IsSpace(s[i])
    {
      assert t[i - k] == s[i];
    }
  }

  /** `s.split(/\s+/)`: the pieces between maximal runs of white space. A leading
      (or trailing) run yields an empty first (or last) piece, and the empty
      string splits into a single empty piece. */
  function Split(s: string): (pieces: seq<string>)
    ensures |pieces| >= 1
    ensures pieces[0] == [] <==> (s == [] || IsSpace(s[0]))
    ensures forall k, c :: 0 <= k < |pieces| && c in pieces[k] ==> !IsSpace(c)
    ensures forall k :: 0 < k < |pieces| - 1 ==> pieces[k] != []
    decreases |s|
  {
    if s == [] then [[]]
    else if IsSpace(s[0]) then
      var rest := TrimStart(s);
      assert |rest| < |s|;
      [[]] + Split(rest)
    else
      var pieces := Split(s[1..]);
      [[s[0]] + pieces[0]] + pieces[1..]
  }

  /** `pieces.filter(w => w.length > 0)`. */
  function NonEmpty(pieces: seq<string>): (words: seq<string>)
    ensures |words| <= |pieces|
    ensures forall w :: w in words ==> w != [] && w in pieces
    ensures forall i :: 0 <= i < |pieces| && pieces[i] != [] ==> pieces[i] in words
  {
    if pieces == [] then []
    else
      var rest := NonEmpty(pieces[1..]);
      assert forall i :: 1 <= i < |pieces| ==> pieces[i] == pieces[1..][i - 1];
      (if pieces[0] == [] then [] else [pieces[0]]) + rest
  }

  /** The number of words the prompt box shows and the 300-word gate tests. */
  function WordCount(text: string): (n: nat)
    ensures n == Runs(text)
  {
    NonEmptySplitIsRuns(Trim(text));
    RunsTrimEnd(TrimStart(text));
    RunsTrimStart(text);
    |NonEmpty(Split(Trim(text)))|
  }

  // ---------------------------------------------------------------------------
  // Reference definition: a word begins wherever a non-space character is the
  // first character or follows a space.

  predicate StartsWord(s: string, i: int) {
    0 <= i < |s| && !IsSpace(s[i]) && (i == 0 || IsSpace(s[i - 1]))
  }

  /** The number of word starts at positions `i` and later. */
  function StartsFrom(s: string, i: nat): nat
    decreases |s| - i
  {
    if i >= |s| then 0 else (if StartsWord(s, i) then 1 else 0) + StartsFrom(s, i + 1)
  }

  /** The number of maximal runs of non-space characters in `s`. */
  function Runs(s: string): nat {
    StartsFrom(s, 0)
  }

  /** Away from the first position, dropping the first character only shifts word starts. */
  lemma {:induction false} StartsFromShift(s: string, i: nat)
    requires s != [] && i >= 1
    ensures StartsFrom(s, i + 1) == StartsFrom(s[1..], i)
    decreases |s| - i
  {
    if i + 1 < |s| {
      assert StartsWord(s, i + 1) == StartsWord(s[1..], i);
      StartsFromShift(s, i + 1);
    }
  }

  /** How the run count of `s` relates to that of its tail. */
  lemma RunsCons(s: string)
    requires s != []
    ensures IsSpace(s[0]) ==> Runs(s) == Runs(s[1..])
    ensures !IsSpace(s[0]) ==>
      Runs(s) + (if |s| > 1 && !IsSpace(s[1]) then 1 else 0) == 1 + Runs(s[1..])
  {
    assert Runs(s) == (if StartsWord(s, 0) then 1 else 0) + StartsFrom(s, 1);
    if |s| > 1 {
      assert StartsFrom(s, 1) == (if StartsWord(s, 1) then 1 else 0) + StartsFrom(s, 2);
      StartsFromShift(s, 1);
      assert Runs(s[1..]) == (if StartsWord(s[1..], 0) then 1 else 0) + StartsFrom(s[1..], 1);
      assert StartsWord(s[1..], 0) <==> !IsSpace(s[1]);
    } else {
      assert StartsFrom(s, 1) == 0 && Runs(s[1..]) == 0;
    }
  }

  /** Leading white space does not change the run count. */
  lemma {:induction false} RunsTrimStart(s: string)
    ensures Runs(TrimStart(s)) == Runs(s)
  {
    if s != [] && IsSpace(s[0]) {
      RunsCons(s);
      RunsTrimStart(s[1..]);
    }
  }

  /** Appending one white-space character does not change the word starts from `i` on. */
  lemma {:induction false} StartsFromSnocSpace(s: string, c: char, i: nat)
    requires IsSpace(c) && i <= |s|
    ensures StartsFrom(s + [c], i) == StartsFrom(s, i)
    decreases |s| - i
  {
    if i < |s| {
      assert StartsWord(s + [c], i) == StartsWord(s, i);
      StartsFromSnocSpace(s, c, i + 1);
    } else {
      assert !StartsWord(s + [c], i);
      assert StartsFrom(s + [c], i + 1) == 0;
    }
  }

  /** Trailing white space does not change the run count. */
  lemma {:induction false} RunsTrimEnd(s: string)
    ensures Runs(TrimEnd(s)) == Runs(s)
  {
    if s != [] && IsSpace(s[|s| - 1]) {
      var init := s[..|s| - 1];
      assert s == init + [s[|s| - 1]];
      StartsFromSnocSpace(init, s[|s| - 1], 0);
      RunsTrimEnd(init);
    }
  }

  /** Splitting and dropping empty pieces leaves exactly one word per run. */
  lemma {:induction false} NonEmptySplitIsRuns(s: string)
    ensures |NonEmpty(Split(s))| == Runs(s)
    decreases |s|
  {
    if s == [] {
    } else if IsSpace(s[0]) {
      var rest := TrimStart(s);
      assert |rest| < |s|;
      var tail := Split(rest);
      assert Split(s) == [[]] + tail;
      assert ([[]] + tail)[1..] == tail;
      NonEmptySplitIsRuns(rest);
      RunsTrimStart(s);
    } else {
      var pieces := Split(s[1..]);
      var first := [s[0]] + pieces[0];
      assert Split(s) == [first] + pieces[1..];
      assert ([first] + pieces[1..])[1..] == pieces[1..];
      assert NonEmpty(Split(s)) == [first] + NonEmpty(pieces[1..]);
      assert pieces == [pieces[0]] + pieces[1..];
      assert NonEmpty(pieces) == (if pieces[0] == [] then [] else [pieces[0]]) + NonEmpty(pieces[1..]);
      NonEmptySplitIsRuns(s[1..]);
      RunsCons(s);
    }
  }

  lemma {:induction false} StartsFromAllSpace(s: string, i: nat)
    requires forall j :: 0 <= j < |s| ==> IsSpace(s[j])
    ensures StartsFrom(s, i) == 0
    decreases |s| - i
  {
    if i < |s| {
      StartsFromAllSpace(s, i + 1);
    }
  }

  /** A non-space character at `k` lies in a run that starts at or before `k`. */
  lemma {:induction false} StartAtOrBefore(s: string, k: nat) returns (j: nat)
    requires k < |s| && !IsSpace(s[k])
    ensures j <= k && StartsWord(s, j)
  {
    if k == 0 || IsSpace(s[k - 1]) {
      j := k;
    } else {
      j := StartAtOrBefore(s, k - 1);
    }
  }

  lemma {:induction false} StartsFromPositive(s: string, i: nat, j: nat)
    requires i <= j && StartsWord(s, j)
    ensures StartsFrom(s, i) >= 1
    decreases j - i
  {
    if i < j {
      StartsFromPositive(s, i + 1, j);
    }
  }

  /** Empty and all-white-space texts, and only those, count zero words. */
  lemma WordCountZeroIff(text: string)
    ensures WordCount(text) == 0 <==> forall i :: 0 <= i < |text| ==> IsSpace(text[i])
  {
    if forall i :: 0 <= i < |text| ==> IsSpace(text[i]) {
      StartsFromAllSpace(text, 0);
    } else {
      var k :| 0 <= k < |text| && !IsSpace(text[k]);
      var j := StartAtOrBefore(text, k);
      StartsFromPositive(text, 0, j);
    }
  }

  // ---------------------------------------------------------------------------
  // What `Split` and `NonEmpty` produce.

  predicate AllSpace(s: string) {
    forall i :: 0 <= i < |s| ==> IsSpace(s[i])
  }

  /** `pieces[0] + seps[0] + pieces[1] + … + seps[n - 1] + pieces[n]`. */
  function Interleave(pieces: seq<string>, seps: seq<string>): string
    requires |pieces| == |seps| + 1
    decreases |seps|
  {
    if seps == [] then pieces[0] else pieces[0] + seps[0] + Interleave(pieces[1..], seps[1..])
  }

  /** `pieces` and `seps` cut a text the way `split(/\s+/)` does: no piece holds white
      space, the inner pieces are non-empty and every separator is a non-empty run of
      white space. */
  predicate IsCut(pieces: seq<string>, seps: seq<string>) {
    && |pieces| == |seps| + 1
    && (forall k, c :: 0 <= k < |pieces| && c in pieces[k] ==> !IsSpace(c))
    && (forall k :: 0 < k < |pieces| - 1 ==> pieces[k] != [])
    && (forall k :: 0 <= k < |seps| ==> seps[k] != [] && AllSpace(seps[k]))
  }

  lemma InterleaveCons(c: char, pieces: seq<string>, seps: seq<string>)
    requires |pieces| == |seps| + 1
    ensures Interleave([[c] + pieces[0]] + pieces[1..], seps) == [c] + Interleave(pieces, seps)
  {
  }

  /** The text is its pieces put back together with a non-empty run of white space
      between each two of them: `split` loses only the separators. */
  lemma {:induction false} SplitJoin(s: string) returns (seps: seq<string>)
    ensures IsCut(Split(s), seps)
    ensures Interleave(Split(s), seps) == s
    decreases |s|, 1
  {
    if s == [] {
      seps := [];
    } else if IsSpace(s[0]) {
      seps := SplitJoinGap(s);
    } else {
      seps := SplitJoinChar(s);
    }
  }

  /** A text that starts with white space: its leading run is the first separator. */
  lemma {:induction false} SplitJoinGap(s: string) returns (seps: seq<string>)
    requires s != [] && IsSpace(s[0])
    ensures IsCut(Split(s), seps)
    ensures Interleave(Split(s), seps) == s
    decreases |s|, 0
  {
    var rest := TrimStart(s);
    var gap := s[..|s| - |rest|];
    assert s == gap + rest;
    assert gap != [] && AllSpace(gap);
    var tail := SplitJoin(rest);
    seps := [gap] + tail;
    assert Split(s) == [[]] + Split(rest);
    CutGap(gap, Split(rest), tail);
  }

  /** An empty piece and a separator in front of a cut whose first piece is non-empty
      (or its only one) give a cut again. */
  lemma CutGap(gap: string, pieces: seq<string>, seps: seq<string>)
    requires IsCut(pieces, seps) && gap != [] && AllSpace(gap)
    requires |pieces| > 1 ==> pieces[0] != []
    ensures IsCut([[]] + pieces, [gap] + seps)
    ensures Interleave([[]] + pieces, [gap] + seps) == gap + Interleave(pieces, seps)
  {
  }

  /** A text that starts with a non-space character: it is the first character of the
      first piece, and the separators are those of the rest. */
  lemma {:induction false} SplitJoinChar(s: string) returns (seps: seq<string>)
    requires s != [] && !IsSpace(s[0])
    ensures IsCut(Split(s), seps)
    ensures Interleave(Split(s), seps) == s
    decreases |s|, 0
  {
    var rest := Split(s[1..]);
    seps := SplitJoin(s[1..]);
    assert Split(s) == [[s[0]] + rest[0]] + rest[1..];
    InterleaveCons(s[0], rest, seps);
    assert s == [s[0]] + s[1..];
  }

  /** White space in front of a text that does not start with white space is exactly
      what `TrimStart` removes. */
  lemma {:induction false} TrimStartGap(gap: string, t: string)
    requires AllSpace(gap)
    requires t == [] || !IsSpace(t[0])
    ensures TrimStart(gap + t) == t
    decreases |gap|
  {
    if gap == [] {
      assert gap + t == t;
    } else {
      assert (gap + t)[1..] == gap[1..] + t;
      TrimStartGap(gap[1..], t);
    }
  }

  /** `Split` is the only such cut of the text: its pieces are the text between the
      maximal white-space runs. */
  lemma {:induction false} SplitUnique(s: string, pieces: seq<string>, seps: seq<string>)
    requires IsCut(pieces, seps) && Interleave(pieces, seps) == s
    ensures pieces == Split(s)
    decreases |s|, 1
  {
    if seps == [] {
      SplitNoSpace(s);
      assert pieces == [s];
    } else if pieces[0] == [] {
      SplitUniqueGap(s, pieces, seps);
    } else {
      SplitUniqueChar(s, pieces, seps);
    }
  }

  /** What follows the first separator of a cut is again a cut, of a text that does not
      start with white space. */
  lemma CutTail(pieces: seq<string>, seps: seq<string>)
    requires IsCut(pieces, seps) && seps != []
    ensures IsCut(pieces[1..], seps[1..])
    ensures var t := Interleave(pieces[1..], seps[1..]); t == [] || !IsSpace(t[0])
  {
  }

  /** A cut whose first piece is empty starts with a separator. */
  lemma {:induction false} SplitUniqueGap(s: string, pieces: seq<string>, seps: seq<string>)
    requires IsCut(pieces, seps) && Interleave(pieces, seps) == s
    requires seps != [] && pieces[0] == []
    ensures pieces == Split(s)
    decreases |s|, 0
  {
    var t := Interleave(pieces[1..], seps[1..]);
    assert s == seps[0] + t;
    assert seps[0] != [] && IsSpace(seps[0][0]);
    assert s[0] == seps[0][0];
    CutTail(pieces, seps);
    TrimStartGap(seps[0], t);
    assert Split(s) == [[]] + Split(t);
    SplitUnique(t, pieces[1..], seps[1..]);
    assert pieces == [[]] + pieces[1..];
  }

  /** A cut whose first piece is non-empty starts with that piece's first character. */
  lemma {:induction false} SplitUniqueChar(s: string, pieces: seq<string>, seps: seq<string>)
    requires IsCut(pieces, seps) && Interleave(pieces, seps) == s
    requires seps != [] && pieces[0] != []
    ensures pieces == Split(s)
    decreases |s|, 0
  {
    var t := Interleave(pieces[1..], seps[1..]);
    var first := pieces[0][1..];
    var rest := [first] + pieces[1..];
    assert pieces[0] == [pieces[0][0]] + first;
    assert pieces[0][0] in pieces[0];
    assert rest[1..] == pieces[1..];
    assert Interleave(rest, seps) == first + seps[0] + t;
    assert s == [pieces[0][0]] + Interleave(rest, seps);
    assert s[1..] == Interleave(rest, seps);
    assert forall c :: c in first ==> c in pieces[0];
    assert forall k :: 1 <= k < |rest| ==> rest[k] == pieces[k];
    assert IsCut(rest, seps);
    SplitUnique(s[1..], rest, seps);
    assert pieces == [[s[0]] + rest[0]] + rest[1..];
  }

  /** A text without white space is a single piece. */
  lemma {:induction false} SplitNoSpace(s: string)
    requires forall c :: c in s ==> !IsSpace(c)
    ensures Split(s) == [s]
    decreases |s|
  {
    if s != [] {
      assert s[0] in s;
      assert forall c :: c in s[1..] ==> c in s;
      SplitNoSpace(s[1..]);
      assert s == [s[0]] + s[1..];
    }
  }

  /** Dropping empty pieces keeps the order: `NonEmpty` distributes over `+` and keeps
      a single piece exactly when it is non-empty. */
  lemma {:induction false} NonEmptyAppend(a: seq<string>, b: seq<string>, w: string)
    ensures NonEmpty(a + b) == NonEmpty(a) + NonEmpty(b)
    ensures NonEmpty([w]) == (if w == [] then [] else [w])
    decreases |a|
  {
    assert [w][1..] == [];
    if a == [] {
      assert a + b == b;
    } else {
      assert (a + b)[1..] == a[1..] + b;
      NonEmptyAppend(a[1..], b, w);
    }
  }
}
