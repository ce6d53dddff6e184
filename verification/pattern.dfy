/**
 The mobile-number check: Python's `re.match` with the pattern `1[35678]\d{9}`.

 The pattern is a sequence of fixed-count pieces, each a character class
 repeated a number of times. `re.match` anchors the match at the start of
 the string only, so a string is accepted when some PREFIX of it matches
 the whole pattern; what follows the prefix is never looked at.
 */
module Pattern {
  import opened Text

  /** A literal character, a bracket class such as `[35678]`, or `\d`. */
  datatype CharClass = Char(c: char) | AnyOf(chars: set<char>) | Digit

  /** `cls{times}`; a bare class is a piece with times == 1. */
  datatype Piece = Piece(cls: CharClass, times: nat)

  type Regex = seq<Piece>

  predicate InClass(cls: CharClass, c: char)
  {
    match cls
    case Char(d) => c == d
    case AnyOf(cs) => c in cs
    case Digit => IsDigit(c)
  }

  /** `re.match(p, s) is not None`: one character of s per repetition, left to right. */
  predicate MatchesPrefix(p: Regex, s: string)
    decreases |p|, if p == [] then 0 else p[0].times
  {
    if p == [] then true
    else if p[0].times == 0 then MatchesPrefix(p[1..], s)
    else
      && |s| > 0
      && InClass(p[0].cls, s[0])
      && MatchesPrefix([Piece(p[0].cls, p[0].times - 1)] + p[1..], s[1..])
  }

  const SecondDigits: set<char> := {'3', '5', '6', '7', '8'}

  /** `1[35678]\d{9}` */
  const MobileRegex: Regex := [Piece(Char('1'), 1), Piece(AnyOf(SecondDigits), 1), Piece(Digit, 9)]

  /** The check of the handlers: accepts exactly the strings of mobile shape. */
  predicate IsMobile(s: string): (r: bool)
    ensures r <==> MobileShape(s)
  {
    MobileRegexIff(s);
    MatchesPrefix(MobileRegex, s)
  }

  /**
   The accepted strings, described position by position: at least eleven
   characters, '1' first, one of 3, 5, 6, 7, 8 second, digits at 2..10.
   */
  predicate MobileShape(s: string)
  {
    && |s| >= 11
    && s[0] == '1'
    && s[1] in SecondDigits
    && forall i :: 2 <= i < 11 ==> IsDigit(s[i])
  }

  /** A piece `cls{n}` consumes exactly the next n characters, each in cls. */
  lemma {:induction false} PieceMatches(cls: CharClass, n: nat, rest: Regex, s: string)
    ensures MatchesPrefix([Piece(cls, n)] + rest, s)
        <==> |s| >= n && (forall i :: 0 <= i < n ==> InClass(cls, s[i])) && MatchesPrefix(rest, s[n..])
  {
    var p := [Piece(cls, n)] + rest;
    assert p[1..] == rest;
    if n > 0 && |s| > 0 {
      PieceMatches(cls, n - 1, rest, s[1..]);
      if |s| >= n {
        assert s[1..][n - 1..] == s[n..];
      }
      if InClass(cls, s[0]) && |s| >= n && MatchesPrefix(rest, s[n..])
         && (forall i :: 0 <= i < n - 1 ==> InClass(cls, s[1..][i])) {
        assert forall i :: 0 <= i < n ==> InClass(cls, s[i]) by {
          forall i | 0 <= i < n
            ensures InClass(cls, s[i])
          {
            if i > 0 {
              assert s[i] == s[1..][i - 1];
            }
          }
        }
      }
    }
  }

  /** The regex accepts exactly the strings of mobile shape. */
  lemma MobileRegexIff(s: string)
    ensures MatchesPrefix(MobileRegex, s) <==> MobileShape(s)
  {
    var third: Regex := [Piece(Digit, 9)];
    var second: Regex := [Piece(AnyOf(SecondDigits), 1)] + third;
    assert MobileRegex == [Piece(Char('1'), 1)] + second;
    PieceMatches(Char('1'), 1, second, s);
    if |s| >= 1 {
      PieceMatches(AnyOf(SecondDigits), 1, third, s[1..]);
      if |s| >= 2 {
        PieceMatches(Digit, 9, [], s[2..]);
        assert forall i :: 2 <= i < 11 && i < |s| ==> s[i] == s[2..][i - 2];
      }
    }
  }

  /** Only the first eleven characters are examined: anything may follow them. */
  lemma OnlyFirstElevenCount(s: string, t: string)
    ensures |s| >= 11 ==> (IsMobile(s) <==> IsMobile(s[..11]))
    ensures IsMobile(s) ==> IsMobile(s + t)
  {
    if |s| >= 11 {
      assert forall i :: 0 <= i < 11 ==> s[..11][i] == s[i];
    }
    if IsMobile(s) {
      assert forall i :: 0 <= i < 11 ==> (s + t)[i] == s[i];
    }
  }

  /** A concrete instance: a well-formed number followed by letters is accepted. */
  lemma TrailingTextAccepted()
    ensures IsMobile("13812345678")
    ensures IsMobile("13812345678abc")
    ensures !IsMobile("12812345678")
    ensures !IsMobile("1381234567")
  {
    assert "13812345678abc"[..11] == "13812345678";
    OnlyFirstElevenCount("13812345678", "abc");
  }
}
