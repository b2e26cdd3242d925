/**
  The word-count example's status bar (examples/word-count/src/StatusBar.js):
  the character, word and sentence counts derived from the text stream,
  the selector that combines them, and the labels it renders.
 */
module StatusBar {
  import opened JsObject
  import opened JsText
  import opened Values
  import Pipeline
  import CreateStreams
  import TodoUtil

  // ---------------------------------------------------------------------
  // Characters

  /** A code point outside the Basic Multilingual Plane takes two UTF-16 code units. */
  function CodeUnits(c: char): nat
  {
    if c as int >= 0x10000 then 2 else 1
  }

  /** `text.length`: the number of UTF-16 code units. */
  function CharCount(text: string): (r: nat)
    ensures |text| <= r <= 2 * |text|
    ensures (forall k :: 0 <= k < |text| ==> text[k] as int < 0x10000) ==> r == |text|
  {
    if text == [] then 0 else CharCount(text[..|text| - 1]) + CodeUnits(text[|text| - 1])
  }

  /** Appending text adds its length. */
  lemma {:induction false} CharCountAppend(a: string, b: string)
    ensures CharCount(a + b) == CharCount(a) + CharCount(b)
    decreases |b|
  {
    if b == [] {
      assert a + b == a;
    } else {
      var init := b[..|b| - 1];
      assert (a + b)[..|a + b| - 1] == a + init;
      CharCountAppend(a, init);
    }
  }

  // ---------------------------------------------------------------------
  // Words: `text.match(/\S+/g)`

  /** The length of the run of non-white-space characters at the start of `s`. */
  function RunLength(s: string): (n: nat)
    ensures n <= |s|
    ensures forall k :: 0 <= k < n ==> !IsWhiteSpace(s[k])
    ensures n < |s| ==> IsWhiteSpace(s[n])
  {
    if s == [] || IsWhiteSpace(s[0]) then 0 else 1 + RunLength(s[1..])
  }

  /**
    The matches of `/\S+/g`, left to right: white space is skipped and each
    match is the longest run of other characters. Every match is non-empty
    and holds no white space.
   */
  function WordMatches(s: string): (r: seq<string>)
    ensures forall w :: w in r ==> w != [] && forall k :: 0 <= k < |w| ==> !IsWhiteSpace(w[k])
    decreases |s|
  {
    if s == [] then []
    else if IsWhiteSpace(s[0]) then WordMatches(s[1..])
    else
      var n := RunLength(s);
      [s[..n]] + WordMatches(s[n..])
  }

  /**
    The reference count: the positions holding a non-white-space character
    that starts the text or follows white space; `afterSpace` says whether
    the position before `s` counts as a boundary.
   */
  function WordStarts(s: string, afterSpace: bool): nat
    decreases |s|
  {
    if s == [] then 0
    else (if afterSpace && !IsWhiteSpace(s[0]) then 1 else 0) + WordStarts(s[1..], IsWhiteSpace(s[0]))
  }

  /** Before white space or the end, the flag does not matter. */
  lemma WordStartsAtBoundary(s: string)
    requires s == [] || IsWhiteSpace(s[0])
    ensures WordStarts(s, false) == WordStarts(s, true)
  {
  }

  /** Inside a run of non-white-space characters no word starts. */
  lemma {:induction false} WordStartsInRun(s: string, i: nat, n: nat)
    requires 1 <= i <= n <= |s|
    requires forall k :: 0 <= k < n ==> !IsWhiteSpace(s[k])
    ensures WordStarts(s[i..], false) == WordStarts(s[n..], false)
    decreases n - i
  {
    if i < n {
      assert s[i..][1..] == s[i + 1..];
      WordStartsInRun(s, i + 1, n);
    }
  }

  /** The scanner finds one match per word start. */
  lemma {:induction false} WordMatchesCount(s: string)
    ensures |WordMatches(s)| == WordStarts(s, true)
    decreases |s|
  {
    if s != [] {
      if IsWhiteSpace(s[0]) {
        WordMatchesCount(s[1..]);
      } else {
        var n := RunLength(s);
        WordMatchesCount(s[n..]);
        WordStartsInRun(s, 1, n);
        WordStartsAtBoundary(s[n..]);
      }
    }
  }

  /** There is no match exactly when the text is all white space. */
  lemma {:induction false} WordMatchesEmpty(s: string)
    ensures WordMatches(s) == [] <==> AllWhiteSpace(s)
    decreases |s|
  {
    if s != [] {
      if IsWhiteSpace(s[0]) {
        WordMatchesEmpty(s[1..]);
        assert AllWhiteSpace(s) <==> AllWhiteSpace(s[1..]) by {
          if AllWhiteSpace(s[1..]) {
            forall k | 0 <= k < |s| ensures IsWhiteSpace(s[k]) {
              if k > 0 { assert s[k] == s[1..][k - 1]; }
            }
          }
        }
      }
    }
  }

  /** `String.prototype.match` with a global pattern: `null` when nothing matches. */
  function MatchAll(matches: seq<string>): (r: Option<seq<string>>)
    ensures r.None? <==> matches == []
    ensures r.Some? ==> r.value == matches
  {
    if matches == [] then None else Some(matches)
  }

  /** `matches ? matches.length : 0` */
  function CountOf(matches: Option<seq<string>>): nat
  {
    match matches
    case None => 0
    case Some(ms) => |ms|
  }

  function WordCount(text: string): nat
  {
    CountOf(MatchAll(WordMatches(text)))
  }

  /**
    The word count is the number of word starts, and it is zero exactly
    when the text is all white space, which is when `trim` leaves nothing.
   */
  lemma WordCountSpec(text: string)
    ensures WordCount(text) == WordStarts(text, true)
    ensures WordCount(text) == 0 <==> AllWhiteSpace(text)
    ensures WordCount(text) == 0 <==> Trim(text) == []
  {
    WordMatchesCount(text);
    WordMatchesEmpty(text);
    TrimEmpty(text);
  }

  // ---------------------------------------------------------------------
  // Sentences: `text.match(/\w[.?!](\s|$)/g)`

  predicate IsTerminator(c: char)
  {
    c == '.' || c == '?' || c == '!'
  }

  /** The pattern matches at the start of `s`: a word character, a terminator, then white space or the end. */
  predicate SentenceAt(s: string)
  {
    |s| >= 2 && IsWordChar(s[0]) && IsTerminator(s[1]) && (|s| == 2 || IsWhiteSpace(s[2]))
  }

  /**
    The matches of the global pattern, left to right: a failed attempt
    moves on one character, a match resumes after the characters it took
    (two at the end of the text, three otherwise).
   */
  function SentenceMatches(s: string): (r: seq<string>)
    ensures forall m :: m in r ==> SentenceAt(m) && (|m| == 2 || |m| == 3)
    decreases |s|
  {
    if |s| < 2 then []
    else if SentenceAt(s) then
      var n := if |s| == 2 then 2 else 3;
      [s[..n]] + SentenceMatches(s[n..])
    else SentenceMatches(s[1..])
  }

  /** The reference count: every position at which the pattern matches. */
  function SentencePositions(s: string): nat
    decreases |s|
  {
    if s == [] then 0 else (if SentenceAt(s) then 1 else 0) + SentencePositions(s[1..])
  }

  /**
    Matches never overlap: the characters a match takes after its first
    cannot start one, so the scanner counts every position where the
    pattern matches.
   */
  lemma {:induction false} SentenceMatchesCount(s: string)
    ensures |SentenceMatches(s)| == SentencePositions(s)
    decreases |s|
  {
    if |s| < 2 {
      if |s| == 1 { assert s[1..] == []; }
    } else if SentenceAt(s) {
      assert !SentenceAt(s[1..]);
      if |s| == 2 {
        assert s[1..][1..] == [];
      } else {
        assert s[1..][1..] == s[2..] && !SentenceAt(s[2..]);
        assert s[2..][1..] == s[3..];
        SentenceMatchesCount(s[3..]);
        assert SentenceMatches(s) == [s[..3]] + SentenceMatches(s[3..]);
        assert SentencePositions(s[2..]) == SentencePositions(s[3..]);
        assert SentencePositions(s[1..]) == SentencePositions(s[2..]);
      }
    } else {
      SentenceMatchesCount(s[1..]);
    }
  }

  function SentenceCount(text: string): nat
  {
    CountOf(MatchAll(SentenceMatches(text)))
  }

  /** The sentence count is the number of positions where the pattern matches. */
  lemma SentenceCountSpec(text: string)
    ensures SentenceCount(text) == SentencePositions(text)
  {
    SentenceMatchesCount(text);
  }

  /** Appending a sentence end to a text that ends in a word character adds one sentence. */
  lemma {:induction false} SentenceEndAdds(s: string, c: char, t: char)
    requires IsWordChar(c) && IsTerminator(t)
    ensures SentencePositions(s + [c, t]) == SentencePositions(s + [c]) + 1
    decreases |s|
  {
    if s == [] {
      assert [c, t][1..] == [t];
      assert [c][1..] == [];
    } else {
      assert (s + [c, t])[1..] == s[1..] + [c, t];
      assert (s + [c])[1..] == s[1..] + [c];
      assert SentenceAt(s + [c, t]) == SentenceAt(s + [c]);
      SentenceEndAdds(s[1..], c, t);
    }
  }

  // ---------------------------------------------------------------------
  // The selector

  datatype Counts = Counts(charCount: nat, wordCount: nat, sentenceCount: nat)

  /** The three counts of one text, as `createState` derives them. */
  function CountsOf(text: string): (r: Counts)
    ensures r.wordCount == WordStarts(text, true)
    ensures r.sentenceCount == SentencePositions(text)
  {
    WordCountSpec(text);
    SentenceCountSpec(text);
    Counts(CharCount(text), WordCount(text), SentenceCount(text))
  }

  /**
    What `combineLatest` emits when the text changes from `prev` to `next`:
    the three derived streams see the new text in the order they were
    subscribed, and each of them makes the combination emit once.
   */
  function Change(prev: string, next: string): (r: seq<Counts>)
    ensures |r| == 3 && r[2] == CountsOf(next)
  {
    [ Counts(CharCount(next), WordCount(prev), SentenceCount(prev)),
      Counts(CharCount(next), WordCount(next), SentenceCount(prev)),
      CountsOf(next) ]
  }

  /**
    Everything the selector emits for the texts `texts`: the first text,
    once all three counts have a value, then three emissions per change.
   */
  function Emissions(texts: seq<string>): (r: seq<Counts>)
    requires texts != []
    ensures |r| == 3 * |texts| - 2
    decreases |texts|
  {
    if |texts| == 1 then [CountsOf(texts[0])]
    else Emissions(texts[..|texts| - 1]) + Change(texts[|texts| - 2], texts[|texts| - 1])
  }

  /** After every text the selector's newest emission is consistent with it. */
  lemma {:induction false} EmissionsSettle(texts: seq<string>, i: nat)
    requires 0 < i <= |texts|
    ensures Emissions(texts[..i])[3 * i - 3] == CountsOf(texts[i - 1])
  {
    if i > 1 {
      assert texts[..i][..i - 1] == texts[..i - 1];
    }
  }

  /**
    The first emission of a change agrees with the new text exactly when
    the word and sentence counts did not change.
   */
  lemma ChangeGlitch(prev: string, next: string)
    ensures Change(prev, next)[0] == CountsOf(next) <==>
              WordCount(prev) == WordCount(next) && SentenceCount(prev) == SentenceCount(next)
    ensures Change(prev, next)[1] == CountsOf(next) <==> SentenceCount(prev) == SentenceCount(next)
  {
  }

  /** `({ charCount, wordCount, sentenceCount })` */
  function ToProps(counts: Counts): (v: Value)
    ensures v.Rec? && Keys(v.fields) == ["charCount", "wordCount", "sentenceCount"]
    ensures Get(v.fields, "charCount") == Some(Num(counts.charCount))
    ensures Get(v.fields, "wordCount") == Some(Num(counts.wordCount))
    ensures Get(v.fields, "sentenceCount") == Some(Num(counts.sentenceCount))
  {
    var fields := [("charCount", Num(counts.charCount)), ("wordCount", Num(counts.wordCount)), ("sentenceCount", Num(counts.sentenceCount))];
    assert fields[1..][1..] == [("sentenceCount", Num(counts.sentenceCount))];
    assert Get(fields[1..][1..], "sentenceCount") == Some(Num(counts.sentenceCount));
    assert Get(fields, "sentenceCount") == Get(fields[1..], "sentenceCount") == Get(fields[1..][1..], "sentenceCount");
    Rec(fields)
  }

  function PropsOf(emissions: seq<Counts>): (vs: seq<Value>)
    ensures |vs| == |emissions|
    ensures forall i :: 0 <= i < |emissions| ==> vs[i] == ToProps(emissions[i])
  {
    seq(|emissions|, i requires 0 <= i < |emissions| => ToProps(emissions[i]))
  }

  /**
    Rendered through `connect`, the three emissions of a change made
    between two frames give a single `setState` with the counts of the new
    text, so the mixed intermediate counts are never shown.
   */
  lemma RendersSettledCounts(c: Pipeline.Core, prev: string, next: string)
    requires c.constructed && c.subscribed && c.held.None?
    ensures Pipeline.Frame(Pipeline.EmitAll(c, PropsOf(Change(prev, next)))).1 == Some(ToProps(CountsOf(next)))
  {
    Pipeline.FrameCoalesces(c, PropsOf(Change(prev, next)));
  }

  // ---------------------------------------------------------------------
  // Rendering

  /** `renderItem(value, noun)`, with the number written in plain decimal digits. */
  function RenderItem(value: nat, noun: string): string
  {
    DecimalString(value) + " " + TodoUtil.Pluralize(value, noun, None)
  }

  /** `render(props)`: the three items in order. */
  function Render(counts: Counts): (items: seq<string>)
    ensures items == [RenderItem(counts.charCount, "character"),
                      RenderItem(counts.wordCount, "word"),
                      RenderItem(counts.sentenceCount, "sentence")]
  {
    [ RenderItem(counts.charCount, "character"),
      RenderItem(counts.wordCount, "word"),
      RenderItem(counts.sentenceCount, "sentence") ]
  }

  /** An item's noun is singular exactly for the value 1 and takes an "s" otherwise. */
  lemma RenderItemLabel(value: nat, noun: string)
    ensures RenderItem(value, noun) == DecimalString(value) + " " + noun <==> value == 1
    ensures value != 1 ==> RenderItem(value, noun) == DecimalString(value) + " " + noun + "s"
  {
    TodoUtil.PluralizeDefault(value, noun);
    var prefix := DecimalString(value) + " ";
    if RenderItem(value, noun) == prefix + noun {
      assert (prefix + TodoUtil.Pluralize(value, noun, None))[|prefix|..] == TodoUtil.Pluralize(value, noun, None);
      assert (prefix + noun)[|prefix|..] == noun;
    }
  }
}
