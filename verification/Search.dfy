/**
  Searching (genSearch in repos/postgres/helpers.go) over the search texts that are stored
  with songs, albums and artists (repos/postgres/song.go, album.go, artist.go).
 */
module Search {
  import opened Wrappers
  import opened Normalize

  // ------------------------------------------------------------------ the stored texts

  /** The fields joined with a space in front of each. */
  function Joined(fields: seq<string>): string {
    if fields == [] then [] else Joined(fields[..|fields| - 1]) + [' '] + fields[|fields| - 1]
  }

  function Fields(title: string, albumName: Option<string>, artists: seq<string>): seq<string> {
    [title] + (if albumName.Some? then [albumName.value] else []) + artists
  }

  /** The search text of a song. */
  function SearchText(table: Table, title: string, albumName: Option<string>, artists: seq<string>): string {
    Normalized(Unidecode(table, Joined(Fields(title, albumName, artists)) + [' ']))
  }

  /** The search text of an artist: here the spaces are added after normalising. */
  function ArtistSearchText(table: Table, name: string): string {
    [' '] + Normalized(Unidecode(table, name)) + [' ']
  }

  /** A word of the text stored for one of some fields. */
  ghost predicate FieldWord(table: Table, fields: seq<string>, w: string) {
    exists k :: 0 <= k < |fields| && IsWord(Unidecode(table, fields[k]), w)
  }

  // ------------------------------------------------------------------ the condition

  function Split(s: string): (parts: seq<string>)
    ensures |parts| > 0
  {
    if s == [] then [[]]
    else
      var n := |s| - 1;
      var before := Split(s[..n]);
      if s[n] == ' ' then before + [[]]
      else before[|before| - 1 := before[|before| - 1] + [s[n]]]
  }

  predicate OccursAt(text: string, pattern: string, k: nat) {
    k + |pattern| <= |text| && text[k..k + |pattern|] == pattern
  }

  /** position(pattern in text) > 0 */
  ghost predicate Contains(text: string, pattern: string) {
    exists k: nat :: OccursAt(text, pattern, k)
  }

  /** The condition generated for some patterns, on one row. */
  ghost predicate Holds(patterns: seq<string>, text: string) {
    forall p :: p in patterns ==> Contains(text, p)
  }

  function SpacedWords(words: seq<string>): (patterns: seq<string>)
    ensures |patterns| == |words| && forall i :: 0 <= i < |words| ==> patterns[i] == [' '] + words[i]
  {
    seq(|words|, i requires 0 <= i < |words| => [' '] + words[i])
  }

  function NonEmpty(parts: seq<string>): seq<string> {
    if parts == [] then []
    else
      var n := |parts| - 1;
      NonEmpty(parts[..n]) + if parts[n] == [] then [] else [parts[n]]
  }

  /** The patterns of the condition, and those that rows are ordered by. */
  method GenSearch(table: Table, query: string) returns (conditions: seq<string>, orderBy: seq<string>)
    ensures conditions == SpacedWords(Words(Unidecode(table, query)))
    ensures orderBy == if |conditions| <= 3 then conditions else conditions[..3]
  {
    var normalized := NormalizeText(table, query);
    var searchTokens := Split(normalized);
    PartsHaveNoSpace(normalized);
    SplitFindsWords(normalized);
    conditions, orderBy := Patterns(searchTokens);
  }

  /** The loop over the tokens. */
  method Patterns(searchTokens: seq<string>) returns (conditions: seq<string>, orderBy: seq<string>)
    requires forall i :: 0 <= i < |searchTokens| ==> ' ' !in searchTokens[i]
    ensures conditions == SpacedWords(NonEmpty(searchTokens))
    ensures orderBy == if |conditions| <= 3 then conditions else conditions[..3]
  {
    conditions, orderBy := [], [];
    var tokenCount := 0;
    for i := 0 to |searchTokens|
      invariant conditions == SpacedWords(NonEmpty(searchTokens[..i]))
      invariant tokenCount == |conditions| && orderBy == FirstThree(conditions)
    {
      var token := searchTokens[i];
      assert searchTokens[..i + 1] == searchTokens[..i] + [token];
      if token == "" || token == " " {
        continue;
      }
      token := " " + token;
      conditions := conditions + [token];
      if tokenCount < 3 {
        orderBy := orderBy + [token];
      }
      tokenCount := tokenCount + 1;
    }
    assert searchTokens[..|searchTokens|] == searchTokens;
  }

  function FirstThree(patterns: seq<string>): seq<string> {
    if |patterns| <= 3 then patterns else patterns[..3]
  }

  lemma {:induction false} PartsHaveNoSpace(s: string)
    ensures forall i :: 0 <= i < |Split(s)| ==> ' ' !in Split(s)[i]
  {
    if s != [] {
      PartsHaveNoSpace(s[..|s| - 1]);
    }
  }

  lemma {:induction false} SplitIsScan(s: string)
    requires IsNormal(s)
    ensures var parts := Split(s);
            parts[|parts| - 1] == Scanned(s).open && NonEmpty(parts[..|parts| - 1]) == Scanned(s).words
  {
    if s != [] {
      var n := |s| - 1;
      SplitIsScan(s[..n]);
      var before := Split(s[..n]);
      var last := before[|before| - 1];
      if s[n] == ' ' {
        assert (before + [[]])[..|before|] == before;
      } else {
        assert before[|before| - 1 := last + [s[n]]][..|before| - 1] == before[..|before| - 1];
      }
    }
  }

  lemma SplitFindsWords(s: string)
    requires IsNormal(s)
    ensures NonEmpty(Split(s)) == Words(s)
  {
    SplitIsScan(s);
  }

  // ------------------------------------------------------------------ one word

  /** The text as the condition needs it: normal characters after a leading space. */
  ghost predicate Searchable(text: string) {
    text != [] && text[0] == ' ' && forall k :: 0 <= k < |text| ==> IsNormalChar(text[k])
  }

  function RunEnd(s: string, i: nat): (j: nat)
    requires i <= |s|
    ensures i <= j <= |s| && (j == |s| || IsSpace(s[j])) && forall k :: i <= k < j ==> !IsSpace(s[k])
    decreases |s| - i
  {
    if i == |s| || IsSpace(s[i]) then i else RunEnd(s, i + 1)
  }

  lemma {:induction false} CleanIsFixed(s: string)
    requires forall k :: 0 <= k < |s| ==> IsNormalChar(s[k]) && s[k] != ' '
    ensures Clean(s) == s
  {
    if s != [] {
      CleanIsFixed(s[..|s| - 1]);
      assert s == s[..|s| - 1] + [s[|s| - 1]];
    }
  }

  lemma {:induction false} CleanIsSpaceless(s: string)
    ensures forall k :: 0 <= k < |Clean(s)| ==> IsNormalChar(Clean(s)[k]) && Clean(s)[k] != ' '
  {
    if s != [] {
      CleanIsSpaceless(s[..|s| - 1]);
    }
  }

  lemma WordIsSpaceless(s: string, w: string)
    requires w in Words(s)
    ensures w != [] && forall k :: 0 <= k < |w| ==> IsNormalChar(w[k]) && w[k] != ' '
  {
    WordsAreRuns(s, w);
    var i: nat, j: nat :| IsRun(s, i, j) && w == Clean(s[i..j]);
    CleanIsSpaceless(s[i..j]);
  }

  lemma RunIsWord(text: string, i: nat, j: nat)
    requires Searchable(text) && IsRun(text, i, j) && i < j
    ensures text[i..j] in Words(text)
  {
    CleanIsFixed(text[i..j]);
    WordsAreRuns(text, text[i..j]);
  }

  lemma ContainedIsPrefix(text: string, q: string) returns (w: string)
    requires Searchable(text) && q != [] && Contains(text, [' '] + q)
    requires forall k :: 0 <= k < |q| ==> IsNormalChar(q[k]) && q[k] != ' '
    ensures w in Words(text) && q <= w
  {
    var p := [' '] + q;
    var k: nat :| OccursAt(text, p, k);
    var i := k + 1;
    assert text[k] == p[0];
    forall m | 0 <= m < |q|
      ensures text[i + m] == q[m]
    {
      assert text[k..k + |p|][1 + m] == p[1 + m];
    }
    var j := RunEnd(text, i);
    w := text[i..j];
    RunIsWord(text, i, j);
  }

  lemma WordIsRun(text: string, w: string) returns (i: nat)
    requires Searchable(text) && w in Words(text)
    ensures 0 < i <= i + |w| <= |text| && text[i - 1] == ' ' && text[i..i + |w|] == w
  {
    WordsAreRuns(text, w);
    var j: nat;
    i, j :| IsRun(text, i, j) && w == Clean(text[i..j]);
    CleanIsFixed(text[i..j]);
  }

  lemma PrefixIsContained(text: string, q: string, w: string)
    requires Searchable(text) && w in Words(text) && q <= w
    ensures Contains(text, [' '] + q)
  {
    var i := WordIsRun(text, w);
    assert text[i..i + |q|] == text[i..i + |w|][..|q|];
    var p, k: nat := [' '] + q, i - 1;
    assert text[k..k + |p|] == p;
    assert OccursAt(text, p, k);
    assert Contains(text, p);
  }

  ghost predicate StartsAWord(text: string, q: string) {
    exists w :: w in Words(text) && q <= w
  }

  lemma PatternIsPrefix(query: string, text: string, q: string)
    requires Searchable(text) && q in Words(query)
    ensures Contains(text, [' '] + q) <==> StartsAWord(text, q)
  {
    WordIsSpaceless(query, q);
    if Contains(text, [' '] + q) {
      var w := ContainedIsPrefix(text, q);
    }
    if StartsAWord(text, q) {
      var w :| w in Words(text) && q <= w;
      PrefixIsContained(text, q, w);
    }
  }

  lemma ConditionOnWords(query: string, text: string)
    requires Searchable(text)
    ensures Holds(SpacedWords(Words(query)), text) <==> forall q :: q in Words(query) ==> StartsAWord(text, q)
  {
    var words, patterns := Words(query), SpacedWords(Words(query));
    forall i | 0 <= i < |words|
      ensures patterns[i] in patterns && words[i] in words
      ensures Contains(text, patterns[i]) <==> StartsAWord(text, words[i])
    {
      PatternIsPrefix(query, text, words[i]);
    }
  }

  // ------------------------------------------------------------------ all fields

  lemma WordsOfOneMore(table: Table, before: string, field: string)
    ensures Words(Unidecode(table, before + [' '] + field)) ==
            Words(Unidecode(table, before)) + Words(Unidecode(table, field))
  {
    UnidecodeOfJoin(table, before + [' '], field);
    UnidecodeOfJoin(table, before, [' ']);
    AsciiIsFixed(table, [' ']);
    WordsOfJoin(Unidecode(table, before), Unidecode(table, field));
  }

  ghost predicate JoinHasWord(table: Table, fields: seq<string>, w: string) {
    w in Words(Unidecode(table, Joined(fields))) <==> FieldWord(table, fields, w)
  }

  lemma JoinOneMoreField(table: Table, fields: seq<string>, field: string, w: string)
    requires JoinHasWord(table, fields, w)
    ensures JoinHasWord(table, fields + [field], w)
  {
    assert (fields + [field])[..|fields|] == fields;
    WordsOfOneMore(table, Joined(fields), field);
    WordsAreRuns(Unidecode(table, field), w);
    FieldWordOneMore(table, fields, field, w);
  }

  lemma {:induction false} WordsOfFields(table: Table, fields: seq<string>, w: string)
    ensures JoinHasWord(table, fields, w)
  {
    if fields != [] {
      var init, last := fields[..|fields| - 1], fields[|fields| - 1];
      assert fields == init + [last];
      WordsOfFields(table, init, w);
      JoinOneMoreField(table, init, last, w);
    }
  }

  lemma FieldWordOneMore(table: Table, fields: seq<string>, field: string, w: string)
    ensures FieldWord(table, fields + [field], w) <==> FieldWord(table, fields, w) || IsWord(Unidecode(table, field), w)
  {
    var more := fields + [field];
    if k :| 0 <= k < |fields| && IsWord(Unidecode(table, fields[k]), w) {
      assert more[k] == fields[k];
    }
    assert more[|fields|] == field;
  }

  /** The search text of a song starts and ends with a space, and has no two side by side. */
  lemma SearchTextIsSearchable(table: Table, title: string, albumName: Option<string>, artists: seq<string>)
    ensures var text := SearchText(table, title, albumName, artists);
            Searchable(text) && IsNormal(text) && text[0] == text[|text| - 1] == ' '
  {
    var fields := Fields(title, albumName, artists);
    var raw := Joined(fields) + [' '];
    SpaceStarts(fields);
    SpaceStaysInFront(table, raw);
    UnidecodeOneMore(table, Joined(fields), ' ');
    NormalizedIsNormal(Unidecode(table, raw));
  }

  lemma {:induction false} SpaceStaysInFront(table: Table, s: string)
    requires s != [] && s[0] == ' '
    ensures Unidecode(table, s) != [] && Unidecode(table, s)[0] == ' '
  {
    if |s| > 1 {
      SpaceStaysInFront(table, s[..|s| - 1]);
    }
  }

  lemma {:induction false} SpaceStarts(fields: seq<string>)
    requires fields != []
    ensures Joined(fields) != [] && Joined(fields)[0] == ' '
  {
    if |fields| > 1 {
      SpaceStarts(fields[..|fields| - 1]);
    }
  }

  /** A word of the song's title, of its album's name if it has an album, or of an artist. */
  ghost predicate WordOfSong(table: Table, title: string, albumName: Option<string>, artists: seq<string>, w: string) {
    || IsWord(Unidecode(table, title), w)
    || (albumName.Some? && IsWord(Unidecode(table, albumName.value), w))
    || exists k :: 0 <= k < |artists| && IsWord(Unidecode(table, artists[k]), w)
  }

  lemma FieldsAreSong(table: Table, title: string, albumName: Option<string>, artists: seq<string>, w: string)
    ensures FieldWord(table, Fields(title, albumName, artists), w) <==> WordOfSong(table, title, albumName, artists, w)
  {
    var fields := Fields(title, albumName, artists);
    var skipped := |fields| - |artists|;
    assert fields[0] == title && (albumName.Some? ==> fields[1] == albumName.value);
    forall k | 0 <= k < |artists|
      ensures fields[skipped + k] == artists[k]
    {
    }
    if k :| 0 <= k < |fields| && IsWord(Unidecode(table, fields[k]), w) {
      if k >= skipped {
        assert artists[k - skipped] == fields[k];
      }
    }
  }

  /** The words of the search text are those of the song. */
  lemma SearchTextWords(table: Table, title: string, albumName: Option<string>, artists: seq<string>, w: string)
    ensures w in Words(SearchText(table, title, albumName, artists)) <==>
            WordOfSong(table, title, albumName, artists, w)
  {
    var fields := Fields(title, albumName, artists);
    WordsAreKept(Unidecode(table, Joined(fields) + [' ']));
    WordsOfOneMore(table, Joined(fields), []);
    assert Joined(fields) + [' '] + [] == Joined(fields) + [' '];
    WordsOfFields(table, fields, w);
    FieldsAreSong(table, title, albumName, artists, w);
  }

  /** A song is found exactly when every word of the query is a prefix of a word of its title,
      its album's name or an artist's name. */
  lemma SearchIsWordPrefixSearch(table: Table, query: string, title: string, albumName: Option<string>,
                                 artists: seq<string>)
    ensures Holds(SpacedWords(Words(Unidecode(table, query))), SearchText(table, title, albumName, artists)) <==>
            forall q :: IsWord(Unidecode(table, query), q) ==>
                          exists w :: WordOfSong(table, title, albumName, artists, w) && q <= w
  {
    var asked, text := Unidecode(table, query), SearchText(table, title, albumName, artists);
    SearchTextIsSearchable(table, title, albumName, artists);
    ConditionOnWords(asked, text);
    forall q
      ensures q in Words(asked) <==> IsWord(asked, q)
      ensures q in Words(text) <==> WordOfSong(table, title, albumName, artists, q)
    {
      WordsAreRuns(asked, q);
      SearchTextWords(table, title, albumName, artists, q);
    }
  }

  lemma WordsOfPadded(s: string)
    ensures Words([' '] + s + [' ']) == Words(s)
  {
    WordsOfJoin([], s);
    assert [] + [' '] + s == [' '] + s;
    WordsOfJoin([' '] + s, []);
    assert [' '] + s + [' '] + [] == [' '] + s + [' '];
  }

  lemma ArtistTextWords(table: Table, name: string)
    ensures Words(ArtistSearchText(table, name)) == Words(Unidecode(table, name))
    ensures Searchable(ArtistSearchText(table, name))
    ensures var text := ArtistSearchText(table, name); |text| >= 2 && text[0] == text[|text| - 1] == ' '
  {
    NormalizedIsNormal(Unidecode(table, name));
    WordsOfPadded(Normalized(Unidecode(table, name)));
    WordsAreKept(Unidecode(table, name));
  }

  /** The same for an artist, whose text may have two spaces side by side. */
  lemma ArtistSearchIsWordPrefixSearch(table: Table, query: string, name: string)
    ensures Holds(SpacedWords(Words(Unidecode(table, query))), ArtistSearchText(table, name)) <==>
            forall q :: IsWord(Unidecode(table, query), q) ==> exists w :: IsWord(Unidecode(table, name), w) && q <= w
  {
    var asked, ascii := Unidecode(table, query), Unidecode(table, name);
    ArtistTextWords(table, name);
    ConditionOnWords(asked, ArtistSearchText(table, name));
    forall q
      ensures q in Words(asked) <==> IsWord(asked, q)
      ensures q in Words(ascii) <==> IsWord(ascii, q)
    {
      WordsAreRuns(asked, q);
      WordsAreRuns(ascii, q);
    }
  }
}
