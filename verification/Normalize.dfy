/**
  Text in the form that user input is compared with (util/normalize.go): transliterated to
  ASCII, in lower case, without anything but letters, digits and single spaces.
 */
module Normalize {
  predicate IsAscii(s: string) {
    forall k :: 0 <= k < |s| ==> s[k] < 128 as char
  }

  /** A transliteration table; its entries for ASCII characters are not used. */
  type Table = t: char -> string | forall c :: IsAscii(t(c)) witness c => ""

  predicate IsSpace(c: char) {
    c == ' ' || 9 as char <= c <= 13 as char
  }

  predicate IsLetterOrDigit(c: char) {
    'a' <= c <= 'z' || 'A' <= c <= 'Z' || '0' <= c <= '9'
  }

  function ToLower(c: char): char {
    if 'A' <= c <= 'Z' then c - 'A' + 'a' else c
  }

  function Transliterated(table: Table, c: char): string {
    if c < 128 as char then [c] else table(c)
  }

  function Unidecode(table: Table, text: string): string {
    if text == [] then []
    else
      var n := |text| - 1;
      Unidecode(table, text[..n]) + Transliterated(table, text[n])
  }

  lemma {:induction false} UnidecodeIsAscii(table: Table, text: string)
    ensures IsAscii(Unidecode(table, text))
  {
    if text != [] {
      UnidecodeIsAscii(table, text[..|text| - 1]);
    }
  }

  /** One character of the loop. */
  function Step(result: string, c: char): string {
    if IsSpace(c) then if result == [] || result[|result| - 1] != ' ' then result + [' '] else result
    else if IsLetterOrDigit(c) then result + [ToLower(c)]
    else result
  }

  function Normalized(ascii: string): string {
    if ascii == [] then [] else Step(Normalized(ascii[..|ascii| - 1]), ascii[|ascii| - 1])
  }

  lemma NormalizedOneMore(ascii: string, i: nat)
    requires i < |ascii|
    ensures Normalized(ascii[..i + 1]) == Step(Normalized(ascii[..i]), ascii[i])
  {
    assert ascii[..i + 1][..i] == ascii[..i];
  }

  method NormalizeText(table: Table, text: string) returns (result: string)
    ensures result == Normalized(Unidecode(table, text))
    ensures IsNormal(result)
    ensures Words(result) == Words(Unidecode(table, text))
  {
    var ascii := Unidecode(table, text);
    result := [];
    for i := 0 to |ascii|
      invariant result == Normalized(ascii[..i])
    {
      NormalizedOneMore(ascii, i);
      if IsSpace(ascii[i]) {
        if result == [] || result[|result| - 1] != ' ' {
          result := result + [' '];
        }
        continue;
      }
      if !IsLetterOrDigit(ascii[i]) {
        continue;
      }
      result := result + [ToLower(ascii[i])];
    }
    assert ascii[..|ascii|] == ascii;
    NormalizedIsNormal(ascii);
    WordsAreKept(ascii);
  }

  // ------------------------------------------------------------------ normal texts

  predicate IsNormalChar(c: char) {
    c == ' ' || 'a' <= c <= 'z' || '0' <= c <= '9'
  }

  /** Only lower-case letters, digits and spaces, and no two spaces side by side. */
  ghost predicate IsNormal(s: string) {
    && (forall k :: 0 <= k < |s| ==> IsNormalChar(s[k]))
    && (forall k :: 0 < k < |s| ==> !(s[k] == ' ' && s[k - 1] == ' '))
  }

  lemma {:induction false} NormalizedIsNormal(ascii: string)
    ensures IsNormal(Normalized(ascii))
    ensures ascii != [] && IsSpace(ascii[0]) ==> Normalized(ascii) != [] && Normalized(ascii)[0] == ' '
    ensures var n := Normalized(ascii); ascii != [] && IsSpace(ascii[|ascii| - 1]) ==> n != [] && n[|n| - 1] == ' '
  {
    if ascii != [] {
      NormalizedIsNormal(ascii[..|ascii| - 1]);
    }
  }

  lemma {:induction false} NormalIsFixed(s: string)
    requires IsNormal(s)
    ensures Normalized(s) == s
  {
    if s != [] {
      var init, last := s[..|s| - 1], s[|s| - 1];
      NormalIsFixed(init);
      assert s == init + [last];
    }
  }

  lemma {:induction false} AsciiIsFixed(table: Table, s: string)
    requires IsAscii(s)
    ensures Unidecode(table, s) == s
  {
    if s != [] {
      AsciiIsFixed(table, s[..|s| - 1]);
      assert s == s[..|s| - 1] + [s[|s| - 1]];
    }
  }

  lemma NormalIsUnchanged(table: Table, s: string)
    requires IsNormal(s)
    ensures Normalized(Unidecode(table, s)) == s
  {
    AsciiIsFixed(table, s);
    NormalIsFixed(s);
  }

  /** Normalising a normalised text changes nothing, and the normalised texts are the normal ones. */
  lemma NormalizingIsIdempotent(table: Table, text: string)
    ensures var once := Normalized(Unidecode(table, text));
            Normalized(Unidecode(table, once)) == once
    ensures IsNormal(text) <==> Normalized(Unidecode(table, text)) == text
  {
    NormalizedIsNormal(Unidecode(table, text));
    NormalIsUnchanged(table, Normalized(Unidecode(table, text)));
    if IsNormal(text) {
      NormalIsUnchanged(table, text);
    }
  }

  // ------------------------------------------------------------------ characters

  const UPPER := "ABCDEFGHIJKLMNOPQRSTUVWXYZ"
  const LOWER := "abcdefghijklmnopqrstuvwxyz"
  const DIGITS := "0123456789"

  /** Consecutive characters from `first` on. */
  lemma InSequence(s: string, first: char, c: char)
    requires first as int + |s| <= 128 && forall i :: 0 <= i < |s| ==> s[i] == first + i as char
    ensures c in s <==> first as int <= c as int < first as int + |s|
  {
    if first as int <= c as int < first as int + |s| {
      assert s[c as int - first as int] == c;
    }
  }

  /** Lower case letter by letter; other characters stay. */
  lemma LowerCase(c: char)
    ensures forall i :: 0 <= i < |UPPER| ==> i < |LOWER| && ToLower(UPPER[i]) == LOWER[i]
    ensures c !in UPPER ==> ToLower(c) == c
  {
    InSequence(UPPER, 'A', c);
  }

  /** Which characters are kept: the letters and digits of ASCII. */
  lemma KeptCharacters(c: char)
    ensures IsLetterOrDigit(c) <==> c in UPPER || c in LOWER || c in DIGITS
  {
    InSequence(UPPER, 'A', c);
    InSequence(LOWER, 'a', c);
    InSequence(DIGITS, '0', c);
  }

  /** Which characters separate words: space, tab, line feed, vertical tab, form feed and
      carriage return. */
  lemma SpaceCharacters(c: char)
    ensures IsSpace(c) <==> c in [' ', '\t', '\n', 11 as char, 12 as char, '\r']
  {
  }

  /** Transliteration goes character by character: ASCII stays, the rest is looked up. */
  lemma CharacterByCharacter(table: Table, s: string, c: char)
    ensures Unidecode(table, []) == []
    ensures Unidecode(table, s + [c]) == Unidecode(table, s) + if c as int < 128 then [c] else table(c)
  {
    assert (s + [c])[..|s|] == s;
  }

  // ------------------------------------------------------------------ words

  /** What is left of a piece of text: its letters and digits, in lower case. */
  function Clean(s: string): string {
    if s == [] then []
    else
      var n := |s| - 1;
      Clean(s[..n]) + if IsLetterOrDigit(s[n]) then [ToLower(s[n])] else []
  }

  /** A piece between white space. */
  predicate IsRun(s: string, i: nat, j: nat) {
    && i <= j <= |s|
    && (i == 0 || IsSpace(s[i - 1]))
    && (j == |s| || IsSpace(s[j]))
    && forall k :: i <= k < j ==> !IsSpace(s[k])
  }

  /** The finished words and the last one, which goes on. */
  datatype Scan = Scan(words: seq<string>, open: string) {
    function Closed(): Scan {
      if open == [] then this else Scan(words + [open], [])
    }

    function Next(c: char): Scan {
      if IsSpace(c) then Closed()
      else if IsLetterOrDigit(c) then Scan(words, open + [ToLower(c)])
      else this
    }
  }

  function Scanned(s: string): Scan {
    if s == [] then Scan([], [])
    else Scanned(s[..|s| - 1]).Next(s[|s| - 1])
  }

  /** The words of a text; WordsAreRuns says what they are. */
  function Words(s: string): seq<string> {
    Scanned(s).Closed().words
  }

  /** Where the last piece of a text starts. */
  function LastStart(s: string): (i: nat)
    ensures i <= |s|
    ensures IsRun(s, i, |s|)
  {
    if s == [] || IsSpace(s[|s| - 1]) then |s|
    else
      assert s == s[..|s| - 1] + [s[|s| - 1]];
      LastStart(s[..|s| - 1])
  }

  lemma {:induction false} OpenIsLastPiece(s: string)
    ensures Scanned(s).open == Clean(s[LastStart(s)..])
  {
    if s != [] {
      var n := |s| - 1;
      OpenIsLastPiece(s[..n]);
      if !IsSpace(s[n]) {
        assert s[LastStart(s)..][..n - LastStart(s)] == s[..n][LastStart(s)..];
      }
    }
  }

  /** A word that is finished: white space follows it. */
  ghost predicate IsFinished(s: string, w: string) {
    w != [] && exists i: nat, j: nat :: j < |s| && IsRun(s, i, j) && w == Clean(s[i..j])
  }

  ghost predicate IsWord(s: string, w: string) {
    w != [] && exists i: nat, j: nat :: IsRun(s, i, j) && w == Clean(s[i..j])
  }

  lemma FinishedStays(s: string, c: char, w: string)
    requires IsFinished(s, w) || (IsSpace(c) && w != [] && w == Clean(s[LastStart(s)..]))
    ensures IsFinished(s + [c], w)
  {
    var t, l := s + [c], LastStart(s);
    if IsFinished(s, w) {
      var i: nat, j: nat :| j < |s| && IsRun(s, i, j) && w == Clean(s[i..j]);
      assert IsRun(t, i, j) && t[i..j] == s[i..j];
    } else {
      assert IsRun(t, l, |s|) && t[l..|s|] == s[l..];
    }
  }

  lemma FinishedBefore(s: string, c: char, w: string)
    requires IsFinished(s + [c], w)
    ensures IsFinished(s, w) || (IsSpace(c) && w == Clean(s[LastStart(s)..]))
  {
    var t := s + [c];
    var i: nat, j: nat :| j < |t| && IsRun(t, i, j) && w == Clean(t[i..j]);
    assert t[i..j] == s[i..j];
    if j < |s| {
      assert forall k :: 0 <= k < |s| ==> s[k] == t[k];
      assert IsRun(s, i, j);
    } else {
      assert t[..|s|] == s;
      assert s[i..j] == s[LastStart(s)..];
    }
  }

  lemma {:induction false} FinishedWords(s: string, w: string)
    ensures w in Scanned(s).words <==> IsFinished(s, w)
  {
    if s != [] {
      var n := |s| - 1;
      assert s == s[..n] + [s[n]];
      FinishedWords(s[..n], w);
      OpenIsLastPiece(s[..n]);
      if IsFinished(s, w) {
        FinishedBefore(s[..n], s[n], w);
      } else if IsFinished(s[..n], w) || (IsSpace(s[n]) && w != [] && w == Clean(s[..n][LastStart(s[..n])..])) {
        FinishedStays(s[..n], s[n], w);
      }
    }
  }

  /** The words of a text are the cleaned pieces between white space, where anything is left. */
  lemma WordsAreRuns(s: string, w: string)
    ensures w in Words(s) <==> IsWord(s, w)
  {
    FinishedWords(s, w);
    OpenIsLastPiece(s);
    if IsWord(s, w) {
      var i: nat, j: nat :| IsRun(s, i, j) && w == Clean(s[i..j]);
      if j == |s| {
        assert s[..j] == s;
        assert s[i..j] == s[LastStart(s)..];
      }
    }
    if w in Words(s) && w !in Scanned(s).words {
      assert IsRun(s, LastStart(s), |s|) && s[LastStart(s)..|s|] == s[LastStart(s)..];
    }
  }

  lemma ScanOneMore(s: string, c: char)
    ensures Scanned(s + [c]) == Scanned(s).Next(c)
  {
    assert (s + [c])[..|s|] == s;
  }

  lemma StepIsNext(result: string, c: char)
    ensures Scanned(Step(result, c)) == Scanned(result).Next(c)
  {
    ScanOneMore(result, ' ');
    ScanOneMore(result, ToLower(c));
  }

  /** Normalising keeps the words, in order. */
  lemma {:induction false} ScanIsKept(ascii: string)
    ensures Scanned(Normalized(ascii)) == Scanned(ascii)
  {
    if ascii != [] {
      ScanIsKept(ascii[..|ascii| - 1]);
      StepIsNext(Normalized(ascii[..|ascii| - 1]), ascii[|ascii| - 1]);
    }
  }

  lemma WordsAreKept(ascii: string)
    ensures Words(Normalized(ascii)) == Words(ascii)
  {
    ScanIsKept(ascii);
  }

  // ------------------------------------------------------------------ joining texts

  lemma {:induction false} ScanOfJoin(a: string, b: string)
    ensures Scanned(a + [' '] + b) == Scan(Words(a) + Scanned(b).words, Scanned(b).open)
    decreases |b|
  {
    if b == [] {
      ScanOneMore(a, ' ');
      assert a + [' '] + b == a + [' '];
    } else {
      var n := |b| - 1;
      ScanOfJoin(a, b[..n]);
      ScanOneMore(a + [' '] + b[..n], b[n]);
      assert a + [' '] + b == a + [' '] + b[..n] + [b[n]];
    }
  }

  lemma WordsOfJoin(a: string, b: string)
    ensures Words(a + [' '] + b) == Words(a) + Words(b)
  {
    ScanOfJoin(a, b);
  }

  lemma UnidecodeOneMore(table: Table, s: string, c: char)
    ensures Unidecode(table, s + [c]) == Unidecode(table, s) + Transliterated(table, c)
  {
    assert (s + [c])[..|s|] == s;
  }

  ghost predicate Joins(table: Table, a: string, b: string) {
    Unidecode(table, a + b) == Unidecode(table, a) + Unidecode(table, b)
  }

  lemma JoinOneMore(table: Table, a: string, b: string, c: char)
    requires Joins(table, a, b)
    ensures Joins(table, a, b + [c])
  {
    AppendAssociates(a, b, [c]);
    UnidecodeOneMore(table, a + b, c);
    UnidecodeOneMore(table, b, c);
    AppendAssociates(Unidecode(table, a), Unidecode(table, b), Transliterated(table, c));
  }

  lemma AppendAssociates(a: string, b: string, c: string)
    ensures a + b + c == a + (b + c)
  {
  }

  lemma JoinNothing(table: Table, a: string)
    ensures Joins(table, a, [])
  {
    assert a + [] == a;
  }

  lemma {:induction false} UnidecodeOfJoin(table: Table, a: string, b: string)
    ensures Joins(table, a, b)
    decreases |b|
  {
    if b == [] {
      JoinNothing(table, a);
    } else {
      var before, c := b[..|b| - 1], b[|b| - 1];
      assert b == before + [c];
      UnidecodeOfJoin(table, a, before);
      JoinOneMore(table, a, before, c);
    }
  }
}
