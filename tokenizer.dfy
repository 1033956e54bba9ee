/**
 * ShuntingYard.tokenize (shuntingYard.js:124-133).
 *
 * The regular expression that recognises numbers, quoted strings, operator
 * tokens, grouping symbols and single spaces is not modelled; the input is
 * given as the scan that expression produces: the text of each match, in
 * order, and every character between matches that no alternative covers.
 */
module Tokenizer {
  import opened Results
  import opened Values

  /** A stretch of the input: the text of one match, or one character no match covers. */
  datatype Piece = Match(text: string) | Gap(c: char)

  /** The input string the scan came from. */
  function Input(pieces: seq<Piece>): string {
    if pieces == [] then ""
    else
      (match pieces[0] case Match(t) => t case Gap(c) => [c]) + Input(pieces[1..])
  }

  /** `str.match(regex)` with the global flag: the match texts in order. */
  function Matches(pieces: seq<Piece>): seq<string> {
    if pieces == [] then []
    else (if pieces[0].Match? then [pieces[0].text] else []) + Matches(pieces[1..])
  }

  predicate HasGap(pieces: seq<Piece>) {
    exists k :: 0 <= k < |pieces| && pieces[k].Gap?
  }

  /** `tokens.join('')`. */
  function Concat(ss: seq<string>): string {
    if ss == [] then "" else ss[0] + Concat(ss[1..])
  }

  /** `str.replace(regex, '\n')`: every match replaced by a line break. */
  function Replaced(pieces: seq<Piece>): string {
    if pieces == [] then "" else ReplacedHead(pieces[0]) + Replaced(pieces[1..])
  }

  /** What one piece becomes in the replaced input. */
  function ReplacedHead(p: Piece): string {
    match p case Match(_) => "\n" case Gap(c) => [c]
  }

  /** The characters no match covers. */
  function GapChars(pieces: seq<Piece>): set<char> {
    set k | 0 <= k < |pieces| && pieces[k].Gap? :: pieces[k].c
  }

  /** `s.split('\n').filter(e => e !== '')[0]`: the first non-empty line of `s`, if any. */
  function FirstLine(s: string): (r: Option<string>)
    ensures r.Some? ==> r.value != [] && '\n' !in r.value
    ensures r.Some? ==> forall c :: c in r.value ==> c in s
    ensures r.None? <==> forall k :: 0 <= k < |s| ==> s[k] == '\n'
  {
    if s == [] then None
    else if s[0] == '\n' then
      var r := FirstLine(s[1..]);
      assert forall k :: 1 <= k < |s| ==> s[k] == s[1..][k - 1];
      r
    else Some(LineAt(s))
  }

  /** The characters of `s` up to its first line break. */
  function LineAt(s: string): (r: string)
    ensures |r| <= |s| && r == s[..|r|]
    ensures '\n' !in r
  {
    if s == [] || s[0] == '\n' then "" else [s[0]] + LineAt(s[1..])
  }

  /** `tokens.map(token => token.trim()).filter(token => token !== '')`. */
  function TrimAll(ms: seq<string>): seq<string> {
    if ms == [] then []
    else
      var t := Trim(ms[0]);
      (if t == "" then [] else [t]) + TrimAll(ms[1..])
  }

  /** A token that is not all white space trims to a trimmed token. */
  lemma TrimmedToken(s: string)
    ensures Trim(s) != "" ==> IsTrimmedToken(Trim(s))
  {
  }

  /** Every token left after trimming and filtering is non-empty and trimmed. */
  lemma {:induction false} TrimAllTrimmed(ms: seq<string>)
    ensures forall k :: 0 <= k < |TrimAll(ms)| ==> IsTrimmedToken(TrimAll(ms)[k])
  {
    if ms != [] {
      var t := Trim(ms[0]);
      var head := if t == "" then [] else [t];
      var rest := TrimAll(ms[1..]);
      TrimmedToken(ms[0]);
      TrimAllTrimmed(ms[1..]);
      assert TrimAll(ms) == head + rest;
      forall k | 0 <= k < |head + rest| ensures IsTrimmedToken((head + rest)[k]) {
        if k >= |head| {
          assert (head + rest)[k] == rest[k - |head|];
        }
      }
    }
  }

  /** Non-empty, and neither starts nor ends with white space. */
  predicate IsTrimmedToken(t: string) {
    t != [] && !IsWhitespace(t[0]) && !IsWhitespace(t[|t| - 1])
  }

  /**
   * ShuntingYard.tokenize: fails with the first uncovered stretch of the
   * input (or "undefined" when there is none to show) unless the matches
   * cover the input exactly; otherwise the trimmed, non-empty matches.
   */
  function Tokenize(pieces: seq<Piece>): (r: Result<seq<string>>)
    ensures r.Ok? ==> forall k :: 0 <= k < |r.value| ==> IsTrimmedToken(r.value[k])
    ensures r.Err? ==> r.error.UnrecognizedToken?
  {
    var ms := Matches(pieces);
    if ms == [] || Concat(ms) != Input(pieces) then
      Err(UnrecognizedToken(match FirstLine(Replaced(pieces)) case Some(t) => t case None => "undefined"))
    else
      TrimAllTrimmed(ms);
      Ok(TrimAll(ms))
  }

  // ---------------------------------------------------------------------
  // Properties
  // ---------------------------------------------------------------------

  function GapCount(pieces: seq<Piece>): nat {
    if pieces == [] then 0 else (if pieces[0].Gap? then 1 else 0) + GapCount(pieces[1..])
  }

  lemma {:induction false} InputLength(pieces: seq<Piece>)
    ensures |Input(pieces)| == |Concat(Matches(pieces))| + GapCount(pieces)
    ensures GapCount(pieces) == 0 <==> !HasGap(pieces)
  {
    if pieces != [] {
      InputLength(pieces[1..]);
      ConcatAppend(if pieces[0].Match? then [pieces[0].text] else [], Matches(pieces[1..]));
      if HasGap(pieces[1..]) {
        var k :| 0 <= k < |pieces[1..]| && pieces[1..][k].Gap?;
        assert pieces[k + 1].Gap?;
      }
      if pieces[0].Match? && HasGap(pieces) {
        var k :| 0 <= k < |pieces| && pieces[k].Gap?;
        assert pieces[1..][k - 1].Gap?;
      }
    }
  }

  lemma {:induction false} ConcatAppend(a: seq<string>, b: seq<string>)
    ensures Concat(a + b) == Concat(a) + Concat(b)
  {
    if a != [] {
      ConcatAppend(a[1..], b);
      assert (a + b)[1..] == a[1..] + b;
      assert (a + b)[0] == a[0];
      assert Concat(a + b) == a[0] + (Concat(a[1..]) + Concat(b));
      assert Concat(a) == a[0] + Concat(a[1..]);
    } else {
      assert a + b == b;
    }
  }

  /** Without uncovered characters the matches spell out the input. */
  lemma {:induction false} MatchesSpellInput(pieces: seq<Piece>)
    requires !HasGap(pieces)
    ensures Concat(Matches(pieces)) == Input(pieces)
  {
    if pieces != [] {
      assert pieces[0].Match?;
      assert forall k :: 0 <= k < |pieces[1..]| ==> pieces[1..][k] == pieces[k + 1];
      MatchesSpellInput(pieces[1..]);
    }
  }

  /** Tokenizing fails exactly when nothing matched or some character was not covered by a match. */
  lemma TokenizeFailsIffUncovered(pieces: seq<Piece>)
    ensures Tokenize(pieces).Err? <==> Matches(pieces) == [] || HasGap(pieces)
  {
    InputLength(pieces);
    if !HasGap(pieces) {
      MatchesSpellInput(pieces);
    }
  }

  /** The uncovered characters of a scan are those of its first piece and those of the rest. */
  lemma GapCharsCons(pieces: seq<Piece>)
    requires pieces != []
    ensures GapChars(pieces) == (if pieces[0].Gap? then {pieces[0].c} else {}) + GapChars(pieces[1..])
  {
    forall c | c in GapChars(pieces)
      ensures c in (if pieces[0].Gap? then {pieces[0].c} else {}) + GapChars(pieces[1..])
    {
      var k :| 0 <= k < |pieces| && pieces[k].Gap? && pieces[k].c == c;
      if k > 0 {
        assert pieces[1..][k - 1] == pieces[k];
      }
    }
    forall c | c in GapChars(pieces[1..]) ensures c in GapChars(pieces) {
      var k :| 0 <= k < |pieces[1..]| && pieces[1..][k].Gap? && pieces[1..][k].c == c;
      assert pieces[k + 1] == pieces[1..][k];
    }
  }

  /** Every character of the replaced input is a line break or an uncovered character. */
  lemma {:induction false} ReplacedChars(pieces: seq<Piece>)
    ensures forall c :: c in Replaced(pieces) ==> c == '\n' || c in GapChars(pieces)
  {
    if pieces != [] {
      ReplacedChars(pieces[1..]);
      GapCharsCons(pieces);
      var head, tail := ReplacedHead(pieces[0]), Replaced(pieces[1..]);
      assert Replaced(pieces) == head + tail;
      forall c | c in head + tail ensures c == '\n' || c in GapChars(pieces) {
        var k :| 0 <= k < |head + tail| && (head + tail)[k] == c;
        if k >= |head| {
          assert tail[k - |head|] == c;
        }
      }
    }
  }

  /** The replaced input is all line breaks exactly when every uncovered character is one. */
  lemma {:induction false} ReplacedAllBreaks(pieces: seq<Piece>)
    ensures (forall k :: 0 <= k < |Replaced(pieces)| ==> Replaced(pieces)[k] == '\n') <==>
      (forall c :: c in GapChars(pieces) ==> c == '\n')
  {
    if pieces != [] {
      ReplacedAllBreaks(pieces[1..]);
      GapCharsCons(pieces);
      var head, tail := ReplacedHead(pieces[0]), Replaced(pieces[1..]);
      assert Replaced(pieces) == head + tail;
      if forall k :: 0 <= k < |head + tail| ==> (head + tail)[k] == '\n' {
        assert (head + tail)[0] == '\n';
        forall k | 0 <= k < |tail| ensures tail[k] == '\n' {
          assert (head + tail)[k + |head|] == tail[k];
        }
      }
    }
  }

  /**
   * The reported text is a non-empty run of uncovered characters without a
   * line break; it is "undefined" only when every uncovered character is a
   * line break (in particular for the empty input).
   */
  lemma ReportedText(pieces: seq<Piece>)
    requires Tokenize(pieces).Err?
    ensures var t := Tokenize(pieces).error.text;
      (t == "undefined" && forall c :: c in GapChars(pieces) ==> c == '\n') ||
      (t != [] && '\n' !in t && forall c :: c in t ==> c in GapChars(pieces))
  {
    ReplacedChars(pieces);
    ReplacedAllBreaks(pieces);
  }

  /** The empty input is reported as the token "undefined". */
  lemma EmptyInput()
    ensures Tokenize([]) == Err(UnrecognizedToken("undefined"))
  {
  }

  // ---------------------------------------------------------------------
  // Tokens separated by spaces
  // ---------------------------------------------------------------------

  /** The matches other than a single space. */
  function WithoutSpaces(ms: seq<string>): seq<string> {
    if ms == [] then [] else (if ms[0] == " " then [] else [ms[0]]) + WithoutSpaces(ms[1..])
  }

  lemma TrimOfTrimmed(t: string)
    requires IsTrimmedToken(t)
    ensures Trim(t) == t
  {
  }

  /**
   * When every match is a single space or a token without surrounding white
   * space, tokenizing drops the spaces and keeps the other matches in order.
   */
  lemma {:induction false} TokenizeDropsSpaces(ms: seq<string>)
    requires forall k :: 0 <= k < |ms| ==> ms[k] == " " || IsTrimmedToken(ms[k])
    ensures TrimAll(ms) == WithoutSpaces(ms)
  {
    if ms != [] {
      assert Trim(" ") == "" by { assert IsWhitespace(" "[0]); }
      if ms[0] != " " {
        TrimOfTrimmed(ms[0]);
      }
      TokenizeDropsSpaces(ms[1..]);
    }
  }

  /** A fully covered scan of spaces and clean tokens tokenizes to its non-space matches. */
  lemma TokenizeCleanScan(pieces: seq<Piece>)
    requires !HasGap(pieces) && Matches(pieces) != []
    requires forall k :: 0 <= k < |Matches(pieces)| ==> Matches(pieces)[k] == " " || IsTrimmedToken(Matches(pieces)[k])
    ensures Tokenize(pieces) == Ok(WithoutSpaces(Matches(pieces)))
  {
    MatchesSpellInput(pieces);
    TokenizeDropsSpaces(Matches(pieces));
  }
}
