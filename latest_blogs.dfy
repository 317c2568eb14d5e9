/** The text helpers of the latest-blogs section
    (src/app/Components/LatestBlogs.tsx): the initials shown when a blog has
    no image, the plain-text description, the reading-time label, and the rule
    the blog query applies to the HTTP response. */
module LatestBlogs {
  import opened Common

  datatype BlogItem = BlogItem(
    id: string,
    title: string,
    slug: string,
    category: string,
    content: string,
    image: Option<string>,
    createdAt: string)

  // ---------------------------------------------------------------------------
  // Initials: split the name at single spaces, take the first character of
  // each word, keep the first two of those and upper-case them
  // ---------------------------------------------------------------------------

  /** Splitting at every space: the pieces between single spaces, empty pieces included,
      so that consecutive spaces yield empty words and "" yields [""]. */
  function SplitOnSpace(s: string): (words: seq<string>)
    ensures |words| >= 1
    ensures forall i, j :: 0 <= i < |words| && 0 <= j < |words[i]| ==> words[i][j] != ' '
  {
    if s == [] then [""]
    else
      var rest := SplitOnSpace(s[1..]);
      if s[0] == ' ' then [""] + rest
      else [[s[0]] + rest[0]] + rest[1..]
  }

  /** Joining the words with one space between each two. */
  function JoinWithSpace(words: seq<string>): string
    requires |words| >= 1
  {
    if |words| == 1 then words[0] else words[0] + " " + JoinWithSpace(words[1..])
  }

  /** Splitting on spaces loses nothing: joining the words back gives the name. */
  lemma {:induction false} JoinSplitOnSpace(s: string)
    ensures JoinWithSpace(SplitOnSpace(s)) == s
  {
    if s != [] {
      var rest := SplitOnSpace(s[1..]);
      JoinSplitOnSpace(s[1..]);
      if s[0] == ' ' {
        assert SplitOnSpace(s)[1..] == rest;
      } else {
        var words := SplitOnSpace(s);
        assert words[1..] == rest[1..];
        if |rest| > 1 {
          assert JoinWithSpace(rest) == rest[0] + " " + JoinWithSpace(rest[1..]);
        }
      }
    }
  }

  /** The first character of each word, concatenated; an empty word has no
      first character (JavaScript reads `undefined`, which joins as nothing). */
  function FirstChars(words: seq<string>): (r: string)
    ensures |r| <= |words|
  {
    if words == [] then []
    else (if words[0] == [] then [] else [words[0][0]]) + FirstChars(words[1..])
  }

  /** Upper-casing of one character (ASCII letters only). */
  function ToUpper(c: char): (u: char)
    ensures !('a' <= u <= 'z')
    ensures 'a' <= c <= 'z' ==> u as int == c as int - 32
    ensures !('a' <= c <= 'z') ==> u == c
  {
    if 'a' <= c <= 'z' then (c as int - 32) as char else c
  }

  function UpperCase(s: string): (r: string)
    ensures |r| == |s|
    ensures forall i :: 0 <= i < |s| ==> r[i] == ToUpper(s[i])
  {
    seq(|s|, i requires 0 <= i < |s| => ToUpper(s[i]))
  }

  /** The initials of a name: at most two characters, none of them an
      ASCII lower-case letter. */
  function Initials(name: string): (r: string)
    ensures |r| <= 2
    ensures forall i :: 0 <= i < |r| ==> !('a' <= r[i] <= 'z')
  {
    UpperCase(Take(FirstChars(SplitOnSpace(name)), 2))
  }

  /** Reference definition of the characters that begin a word: a non-space
      character at the start or right after a space. `afterSpace` says whether
      the character before `s` was a space (or there was none). */
  function WordStartsFrom(s: string, afterSpace: bool): string
  {
    if s == [] then []
    else (if s[0] != ' ' && afterSpace then [s[0]] else []) + WordStartsFrom(s[1..], s[0] == ' ')
  }

  function WordStarts(s: string): string { WordStartsFrom(s, true) }

  /** The first characters of the split words are exactly the word-start
      characters of the name; in the middle of a word the first piece is the
      tail of that word and contributes nothing. */
  lemma {:induction false} FirstCharsAreWordStarts(s: string, afterSpace: bool)
    ensures afterSpace ==> FirstChars(SplitOnSpace(s)) == WordStartsFrom(s, afterSpace)
    ensures !afterSpace ==> FirstChars(SplitOnSpace(s)[1..]) == WordStartsFrom(s, afterSpace)
  {
    if s != [] {
      var rest := SplitOnSpace(s[1..]);
      FirstCharsAreWordStarts(s[1..], s[0] == ' ');
      if s[0] == ' ' {
        assert SplitOnSpace(s) == [""] + rest;
        assert ([""] + rest)[1..] == rest;
      } else {
        var words := SplitOnSpace(s);
        assert words == [[s[0]] + rest[0]] + rest[1..];
        assert words[1..] == rest[1..];
      }
    }
  }

  /** The initials are the upper-cased first characters of the first two
      non-empty space-separated words of the name, in order: at most two
      characters, none of them an ASCII lower-case letter. */
  lemma InitialsSpec(name: string)
    ensures var r := Initials(name);
      && |r| <= 2
      && |r| == Min(2, |WordStarts(name)|)
      && (forall i :: 0 <= i < |r| ==> r[i] == ToUpper(WordStarts(name)[i]) && !('a' <= r[i] <= 'z'))
  {
    FirstCharsAreWordStarts(name, true);
  }

  /** A name with no non-space character (the empty name included) has empty initials. */
  lemma {:induction false} BlankNameHasNoInitials(name: string)
    requires forall i :: 0 <= i < |name| ==> name[i] == ' '
    ensures Initials(name) == ""
  {
    NoWordStartsInBlank(name, true);
    FirstCharsAreWordStarts(name, true);
  }

  lemma {:induction false} NoWordStartsInBlank(s: string, afterSpace: bool)
    requires forall i :: 0 <= i < |s| ==> s[i] == ' '
    ensures WordStartsFrom(s, afterSpace) == []
  {
    if s != [] {
      NoWordStartsInBlank(s[1..], true);
    }
  }

  // ---------------------------------------------------------------------------
  // Description: remove every tag, then cut the text at 120 characters
  // ---------------------------------------------------------------------------

  /** Position of the first '>' in `s`, if any. */
  function FindClose(s: string): (r: Option<nat>)
    ensures r.Some? ==> r.value < |s| && s[r.value] == '>'
    ensures r.Some? ==> forall k :: 0 <= k < r.value ==> s[k] != '>'
    ensures r.None? ==> forall k :: 0 <= k < |s| ==> s[k] != '>'
  {
    if s == [] then None
    else if s[0] == '>' then Some(0)
    else match FindClose(s[1..])
      case Some(k) => Some(k + 1)
      case None => None
  }

  /** No '<' of `s` is followed, anywhere later, by a '>': `s` holds no
      complete `<...>` span. */
  predicate NoTag(s: string) {
    forall i, j :: 0 <= i < j < |s| && s[i] == '<' ==> s[j] != '>'
  }

  /** The global replacement of `<[^>]*>` by nothing, as the regular
      expression engine performs it: scanning left to right, a '<' that has a
      later '>' starts a match that ends at the first such '>' and is dropped;
      any other character is kept and the scan moves on by one. */
  function StripTags(s: string): (r: string)
    ensures |r| <= |s|
    ensures forall i :: 0 <= i < |r| ==> r[i] in s
    ensures NoTag(r)
    decreases |s|
  {
    if s == [] then []
    else if s[0] == '<' then
      match FindClose(s[1..])
      case Some(k) => StripTags(s[k + 2..])
      case None => [s[0]] + StripTags(s[1..])
    else [s[0]] + StripTags(s[1..])
  }

  /** The text outside the tags keeps its order: the stripped text is a
      subsequence of the content. */
  lemma {:induction false} StripTagsIsSubsequence(s: string)
    ensures IsSubsequence(StripTags(s), s)
    decreases |s|
  {
    if s != [] {
      if s[0] == '<' && FindClose(s[1..]).Some? {
        var k := FindClose(s[1..]).value;
        StripTagsIsSubsequence(s[k + 2..]);
        SubsequenceOfSuffix(StripTags(s), s, k + 2);
      } else {
        StripTagsIsSubsequence(s[1..]);
        assert StripTags(s) == [s[0]] + StripTags(s[1..]);
        assert StripTags(s)[1..] == StripTags(s[1..]);
      }
    }
  }

  lemma {:induction false} NoTagTail(s: string)
    requires s != [] && NoTag(s)
    ensures NoTag(s[1..])
  {
    forall i, j | 0 <= i < j < |s[1..]| && s[1..][i] == '<'
      ensures s[1..][j] != '>'
    {
      assert s[i + 1] == '<';
    }
  }

  /** Text that holds no complete tag comes through stripping unchanged. */
  lemma {:induction false} StripTagsKeepsPlainText(s: string)
    requires NoTag(s)
    ensures StripTags(s) == s
    decreases |s|
  {
    if s != [] {
      NoTagTail(s);
      StripTagsKeepsPlainText(s[1..]);
      if s[0] == '<' {
        forall k | 0 <= k < |s| - 1
          ensures s[1..][k] != '>'
        {
          assert s[1..][k] == s[k + 1];
        }
      }
    }
  }

  /** Position `|t|` holds the first '>' of `t + ">" + b` when `t` has none. */
  lemma {:induction false} FindCloseAfterTagBody(t: string, b: string)
    requires forall i :: 0 <= i < |t| ==> t[i] != '>'
    ensures FindClose(t + ">" + b) == Some(|t|)
  {
    var s := t + ">" + b;
    assert s[|t|] == '>';
  }

  /** Text without a '<' is kept as it stands, and stripping continues after it. */
  lemma {:induction false} StripTagsKeepsTextOutsideTags(a: string, b: string)
    requires forall i :: 0 <= i < |a| ==> a[i] != '<'
    ensures StripTags(a + b) == a + StripTags(b)
  {
    if a == [] {
      assert a + b == b;
    } else {
      var s := a + b;
      assert s[0] == a[0] && s[1..] == a[1..] + b;
      StripTagsKeepsTextOutsideTags(a[1..], b);
      assert a + StripTags(b) == [a[0]] + (a[1..] + StripTags(b));
    }
  }

  /** A complete tag is removed whole, and stripping continues after its '>'. */
  lemma {:induction false} StripTagsDropsTag(t: string, b: string)
    requires forall i :: 0 <= i < |t| ==> t[i] != '>'
    ensures StripTags("<" + t + ">" + b) == StripTags(b)
  {
    var s := "<" + t + ">" + b;
    assert s[1..] == t + ">" + b;
    FindCloseAfterTagBody(t, b);
    assert s[|t| + 2..] == b;
  }

  /** Stripping is idempotent. */
  lemma {:induction false} StripTagsIdempotent(s: string)
    ensures StripTags(StripTags(s)) == StripTags(s)
  {
    StripTagsKeepsPlainText(StripTags(s));
  }

  const DescriptionLimit: nat := 120

  /** Text longer than the limit is cut to its first 120 characters and
      marked with an ellipsis of three dots; shorter text is kept whole. */
  function Truncate(plain: string): (r: string)
    ensures |plain| <= DescriptionLimit ==> r == plain
    ensures |plain| > DescriptionLimit ==>
      |r| == DescriptionLimit + 3 && r[..DescriptionLimit] == plain[..DescriptionLimit] && r[DescriptionLimit..] == "..."
  {
    if |plain| > DescriptionLimit then plain[..DescriptionLimit] + "..." else plain
  }

  /** The card description: at most 123 characters, never a complete tag, and
      the stripped text itself whenever that fits in 120 characters. */
  function ExtractDescription(content: string): (r: string)
    ensures |r| <= DescriptionLimit + 3
    ensures NoTag(r)
    ensures |StripTags(content)| <= DescriptionLimit ==> r == StripTags(content)
    ensures |StripTags(content)| > DescriptionLimit ==>
      |r| == DescriptionLimit + 3 && r == StripTags(content)[..DescriptionLimit] + "..."
  {
    var plain := StripTags(content);
    var r := Truncate(plain);
    assert NoTag(r) by {
      if |plain| > DescriptionLimit {
        forall i, j | 0 <= i < j < |r| && r[i] == '<'
          ensures r[j] != '>'
        {
          if j < DescriptionLimit {
            assert r[i] == plain[i] && r[j] == plain[j];
          } else {
            assert r[j] == '.';
          }
        }
      }
    }
    r
  }

  // ---------------------------------------------------------------------------
  // Reading time: count the pieces between white-space runs and divide by
  // 200 words per minute, rounding up
  // ---------------------------------------------------------------------------

  /** Splitting at white space: the pieces between maximal runs of white space. A
      leading or trailing run yields an empty piece, and "" yields [""]. */
  function SplitOnWhitespace(s: string): (pieces: seq<string>)
    ensures |pieces| >= 1
    ensures forall i, j :: 0 <= i < |pieces| && 0 <= j < |pieces[i]| ==> !IsWhitespace(pieces[i][j])
  {
    if s == [] then [""]
    else
      var rest := SplitOnWhitespace(s[1..]);
      if IsWhitespace(s[0]) then
        (if |s| > 1 && IsWhitespace(s[1]) then rest else [""] + rest)
      else [[s[0]] + rest[0]] + rest[1..]
  }

  /** Reference count of the maximal white-space runs of `s`; `afterSpace`
      says whether the character before `s` was white space. */
  function RunsFrom(s: string, afterSpace: bool): nat
  {
    if s == [] then 0
    else (if IsWhitespace(s[0]) && !afterSpace then 1 else 0) + RunsFrom(s[1..], IsWhitespace(s[0]))
  }

  function WhitespaceRuns(s: string): nat { RunsFrom(s, false) }

  /** The word count the read time uses is one more than the number of
      white-space runs: each run separates two pieces. */
  lemma {:induction false} WordCountIsRunsPlusOne(s: string)
    ensures |SplitOnWhitespace(s)| == 1 + WhitespaceRuns(s)
  {
    if s != [] {
      WordCountIsRunsPlusOne(s[1..]);
      var t := s[1..];
      assert RunsFrom(s, false) == (if IsWhitespace(s[0]) then 1 else 0) + RunsFrom(t, IsWhitespace(s[0]));
      if t != [] {
        assert RunsFrom(t, true) + (if IsWhitespace(t[0]) then 1 else 0) == RunsFrom(t, false);
      }
    }
  }

  const WordsPerMinute: nat := 200

  /** Whole minutes of reading at 200 words per minute, rounded up. */
  function ReadMinutes(content: string): (m: nat)
    ensures var k := |SplitOnWhitespace(content)|;
      m >= 1 && (m - 1) * WordsPerMinute < k <= m * WordsPerMinute
  {
    var k := |SplitOnWhitespace(content)|;
    (k + WordsPerMinute - 1) / WordsPerMinute
  }

  /** The reading-time label: a count of minutes followed by " min read". */
  function ReadTimeLabel(content: string): (text: string)
    ensures |text| > 9 && text[|text| - 9..] == " min read"
  {
    Decimal(ReadMinutes(content)) + " min read"
  }

  /** The label is a decimal numeral of the minutes followed by " min read";
      the minutes are the least whole number covering 200 words per minute and
      are at least 1, even for empty content. */
  lemma ReadTimeLabelSpec(content: string)
    ensures var text := ReadTimeLabel(content);
      var m := ReadMinutes(content);
      var d := |text| - 9;
      && |text| > 9
      && text[d..] == " min read"
      && (forall i :: 0 <= i < d ==> '0' <= text[i] <= '9')
      && DecimalValue(text[..d]) == m
      && m >= 1
      && (m - 1) * WordsPerMinute <= WhitespaceRuns(content) < m * WordsPerMinute
  {
    var m := ReadMinutes(content);
    DecimalRoundTrip(m);
    WordCountIsRunsPlusOne(content);
    assert ReadTimeLabel(content)[..|Decimal(m)|] == Decimal(m);
  }

  // ---------------------------------------------------------------------------
  // The blog query: reject on a non-OK status, else keep the first three posts
  // ---------------------------------------------------------------------------

  datatype BlogsError =
    | HttpError(status: nat)  // the response status was not OK
    | MalformedPayload        // the body has no `data` array

  /** An OK response: a status in the range 200 to 299. */
  predicate IsOk(status: nat)
    ensures IsOk(status) <==> status / 100 == 2
  {
    200 <= status <= 299
  }

  const LatestCount: nat := 3

  /** The query function's result for an HTTP status and the `data` field of
      the decoded body. */
  function LatestBlogsQuery(status: nat, data: Option<seq<BlogItem>>): (r: Result<seq<BlogItem>, BlogsError>)
    ensures r.Failure? <==> !IsOk(status) || data.None?
    ensures !IsOk(status) ==> r == Failure(HttpError(status))
    ensures r.Success? ==>
      |r.value| == Min(LatestCount, |data.value|) &&
      forall i :: 0 <= i < |r.value| ==> r.value[i] == data.value[i]
  {
    if !IsOk(status) then Failure(HttpError(status))
    else match data
      case None => Failure(MalformedPayload)
      case Some(items) => Success(Take(items, LatestCount))
  }
}
