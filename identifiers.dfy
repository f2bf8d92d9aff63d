/**
 * The languoid identifier pattern `ID_REGEX`, matched against a whole string:
 * either four characters from [a-z0-9] followed by four ASCII digits (a
 * glottocode), or the marker `NOCODE`, optionally followed by `_` and one or
 * more characters from [A-Za-z0-9-].
 */
module Identifiers {
  import opened Text

  predicate IsLowerAlnum(c: char) {
    ('a' <= c <= 'z') || IsAsciiDigit(c)
  }

  /** A character of the free-form part after `NOCODE_`. */
  predicate IsSuffixChar(c: char) {
    ('A' <= c <= 'Z') || ('a' <= c <= 'z') || IsAsciiDigit(c) || c == '-'
  }

  /** `[a-z0-9]{4}[0-9]{4}` */
  predicate IsGlottocodeForm(s: string) {
    && |s| == 8
    && (forall i :: 0 <= i < 4 ==> IsLowerAlnum(s[i]))
    && (forall i :: 4 <= i < 8 ==> IsAsciiDigit(s[i]))
  }

  /** `NOCODE(_[A-Za-z0-9\-]+)?` */
  predicate IsNoCodeForm(s: string) {
    && |s| >= 6
    && s[..6] == "NOCODE"
    && (|s| == 6 || (|s| >= 8 && s[6] == '_' && forall i :: 7 <= i < |s| ==> IsSuffixChar(s[i])))
  }

  /** The whole string matches `ID_REGEX`. */
  predicate IsId(s: string) {
    IsGlottocodeForm(s) || IsNoCodeForm(s)
  }

  type Id = s: string | IsId(s) witness "NOCODE"

  /** A character that can occur in an identifier. */
  predicate IsIdChar(c: char) {
    IsSuffixChar(c) || c == '_'
  }

  /** The examples that the pattern is meant to accept and to reject. */
  lemma {:induction false} IdExamples()
    ensures IsId("abcd1234") && IsId("NOCODE_Foo-1") && IsId("NOCODE")
    ensures !IsId("abcd123") && !IsId("AB1234") && !IsId("NOCODE_") && !IsId("abcd12345")
  {
    assert "NOCODE_Foo-1"[..6] == "NOCODE";
    assert "NOCODE"[..6] == "NOCODE";
    assert "AB1234"[..6][0] != "NOCODE"[0];
    assert !IsLowerAlnum("AB1234"[0]);
  }

  /** The two forms never both match: a glottocode has no upper-case letter. */
  lemma {:induction false} FormsDisjoint(s: string)
    ensures !(IsGlottocodeForm(s) && IsNoCodeForm(s))
  {
    if IsNoCodeForm(s) {
      assert s[0] == "NOCODE"[0] == 'N';
    }
  }

  /**
   * Identifiers are non-empty, use only [A-Za-z0-9_-], and start with `N` or a
   * character from [a-z0-9]; in particular they contain none of the characters
   * that delimit the flat format (`[`, `]`, `,`, space).
   */
  lemma {:induction false} IdAlphabet(s: string)
    requires IsId(s)
    ensures |s| >= 6
    ensures forall i :: 0 <= i < |s| ==> IsIdChar(s[i])
    ensures s[0] == 'N' || IsLowerAlnum(s[0])
  {
    if IsNoCodeForm(s) {
      forall i | 0 <= i < 6 ensures IsIdChar(s[i]) {
        assert s[i] == "NOCODE"[i];
      }
      assert s[0] == "NOCODE"[0];
    }
  }
}

/** The closed set of languoid levels and their string values. */
module Levels {
  import opened Wrappers

  datatype Level = Family | Language | Dialect

  /** `Level.x.value` */
  function Value(l: Level): string {
    match l
    case Family => "family"
    case Language => "language"
    case Dialect => "dialect"
  }

  /** `Level(s)`: the level whose value is `s`, if there is one. */
  function Parse(s: string): (r: Option<Level>)
    ensures forall l :: r == Some(l) <==> s == Value(l)
  {
    if s == "family" then Some(Family)
    else if s == "language" then Some(Language)
    else if s == "dialect" then Some(Dialect)
    else None
  }
}
