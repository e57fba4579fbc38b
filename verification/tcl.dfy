/** `as_tcl_value`: the escaping applied to every dynamic value that is
    placed into a Tcl-flavoured do-script or vendor command line.

    The source runs three substitutions in a row: a backslash before each of
    `\`, `{` and `}`; every newline replaced by the two characters `\n`; a
    backslash before each ASCII whitespace character. A leading `"` then gets
    a backslash, and the first character is indexed, so the empty string
    raises `IndexError`.

    The reference for what the output means is Tcl's own parser: backslash
    substitution (rule [9] of the Tcl(n) manual page) and word splitting
    (rules [1]-[3]), for the part of the language the escaped text uses. */
module Tcl {
  import opened Common

  predicate IsMagic(c: char)
  {
    c == '\\' || c == '{' || c == '}'
  }

  /** Python's `\s` under `re.ASCII`. */
  predicate IsSpace(c: char)
  {
    c == ' ' || c == '\t' || c == '\n' || c == '\r' || c == '\U{000B}' || c == '\U{000C}'
  }

  // ---------------------------------------------------------------------
  // The three substitutions, as written

  function SubMagic(s: string): string
  {
    if |s| == 0 then []
    else (if IsMagic(s[0]) then ['\\', s[0]] else [s[0]]) + SubMagic(s[1..])
  }

  function ReplaceNewline(s: string): string
  {
    if |s| == 0 then []
    else (if s[0] == '\n' then ['\\', 'n'] else [s[0]]) + ReplaceNewline(s[1..])
  }

  function SubSpace(s: string): string
  {
    if |s| == 0 then []
    else (if IsSpace(s[0]) then ['\\', s[0]] else [s[0]]) + SubSpace(s[1..])
  }

  /** The escaped text of `value`; the source's leading-quote rule applies
      only to a non-empty text, the empty case raising before it. */
  function Escape(value: string): string
  {
    var t := SubSpace(ReplaceNewline(SubMagic(value)));
    if |t| > 0 && t[0] == '"' then "\\" + t else t
  }

  /** `as_tcl_value(value)`. */
  function AsTclValue(value: string): (r: Result<string>)
    ensures r.Success? <==> |value| > 0
    ensures r.Failure? ==> r.error == IndexError
    ensures r.Success? ==> BackslashSubst(r.value) == Some(value)
  {
    if |value| == 0 then Failure(IndexError)
    else
      EscapeRoundTrip(value);
      Success(Escape(value))
  }

  /** `[as_tcl_value(v) for v in xs]`: fails as soon as one value is empty. */
  function AsTclValues(xs: seq<string>): (r: Result<seq<string>>)
    ensures r.Success? <==> forall i | 0 <= i < |xs| :: |xs[i]| > 0
    ensures r.Failure? ==> r.error == IndexError
    ensures r.Success? ==> |r.value| == |xs|
    ensures r.Success? ==> forall i | 0 <= i < |xs| :: BackslashSubst(r.value[i]) == Some(xs[i])
  {
    if |xs| == 0 then Success([])
    else
      var e :- AsTclValue(xs[0]);
      var es :- AsTclValues(xs[1..]);
      assert forall i | 1 <= i < |xs| :: xs[i] == xs[1..][i - 1];
      Success([e] + es)
  }

  function EscapeAll(xs: seq<string>): (r: seq<string>)
    ensures |r| == |xs|
    ensures forall i | 0 <= i < |xs| :: r[i] == Escape(xs[i])
  {
    seq(|xs|, i requires 0 <= i < |xs| => Escape(xs[i]))
  }

  lemma {:induction false} AsTclValuesIsEscapeAll(xs: seq<string>)
    requires forall i | 0 <= i < |xs| :: |xs[i]| > 0
    ensures AsTclValues(xs) == Success(EscapeAll(xs))
  {
    if |xs| > 0 {
      assert forall i | 0 <= i < |xs[1..]| :: |xs[1..][i]| > 0 by {
        forall i | 0 <= i < |xs[1..]| ensures |xs[1..][i]| > 0 {
          assert xs[1..][i] == xs[i + 1];
        }
      }
      AsTclValuesIsEscapeAll(xs[1..]);
      EscapeAllCons(xs);
    }
  }

  lemma EscapeAllCons(xs: seq<string>)
    requires |xs| > 0
    ensures EscapeAll(xs) == [Escape(xs[0])] + EscapeAll(xs[1..])
  {
    assert forall i | 1 <= i < |xs| :: xs[i] == xs[1..][i - 1];
  }

  // ---------------------------------------------------------------------
  // Reference: one escape per input character

  /** What one input character becomes. */
  function EscChar(c: char): string
  {
    if IsMagic(c) || (IsSpace(c) && c != '\n') then ['\\', c]
    else if c == '\n' then ['\\', 'n']
    else [c]
  }

  function EscChars(s: string): string
  {
    if |s| == 0 then [] else EscChar(s[0]) + EscChars(s[1..])
  }

  lemma {:induction false} SubMagicAppend(a: string, b: string)
    ensures SubMagic(a + b) == SubMagic(a) + SubMagic(b)
  {
    if |a| > 0 {
      assert (a + b)[1..] == a[1..] + b;
      SubMagicAppend(a[1..], b);
    } else {
      assert a + b == b;
    }
  }

  lemma {:induction false} ReplaceNewlineAppend(a: string, b: string)
    ensures ReplaceNewline(a + b) == ReplaceNewline(a) + ReplaceNewline(b)
  {
    if |a| > 0 {
      assert (a + b)[1..] == a[1..] + b;
      ReplaceNewlineAppend(a[1..], b);
    } else {
      assert a + b == b;
    }
  }

  lemma {:induction false} SubSpaceAppend(a: string, b: string)
    ensures SubSpace(a + b) == SubSpace(a) + SubSpace(b)
  {
    if |a| > 0 {
      assert (a + b)[1..] == a[1..] + b;
      SubSpaceAppend(a[1..], b);
    } else {
      assert a + b == b;
    }
  }

  /** The three substitutions in sequence amount to one per-character escape:
      the backslashes inserted by one step are never rewritten by a later one. */
  lemma {:induction false} PipelineIsPerCharacter(s: string)
    ensures SubSpace(ReplaceNewline(SubMagic(s))) == EscChars(s)
  {
    if |s| > 0 {
      var c := s[0];
      var m := if IsMagic(c) then ['\\', c] else [c];
      assert SubMagic(s) == m + SubMagic(s[1..]);
      ReplaceNewlineAppend(m, SubMagic(s[1..]));
      var n := ReplaceNewline(m);
      if IsMagic(c) {
        assert n == ['\\', c] by {
          assert ReplaceNewline(m) == [m[0]] + ReplaceNewline(m[1..]);
          assert m[1..] == [c];
        }
      }
      SubSpaceAppend(n, ReplaceNewline(SubMagic(s[1..])));
      if IsMagic(c) {
        assert SubSpace(n) == ['\\', c] by {
          assert SubSpace(n) == [n[0]] + SubSpace(n[1..]);
          assert n[1..] == [c];
        }
      } else if c == '\n' {
        assert SubSpace(n) == ['\\', 'n'] by {
          assert SubSpace(n) == [n[0]] + SubSpace(n[1..]);
          assert n[1..] == ['n'];
        }
      }
      PipelineIsPerCharacter(s[1..]);
    }
  }

  lemma {:induction false} EscCharsAppend(a: string, b: string)
    ensures EscChars(a + b) == EscChars(a) + EscChars(b)
  {
    if |a| > 0 {
      assert (a + b)[1..] == a[1..] + b;
      EscCharsAppend(a[1..], b);
    } else {
      assert a + b == b;
    }
  }

  lemma {:induction false} EscCharsLength(s: string)
    ensures |EscChars(s)| >= |s|
    ensures |s| > 0 ==> EscChars(s)[0] == EscChar(s[0])[0]
  {
    if |s| > 0 {
      EscCharsLength(s[1..]);
    }
  }

  /** `Escape` is the leading-quote rule applied to the per-character escape. */
  lemma EscapeDecomposed(value: string)
    ensures |value| > 0 && value[0] == '"' ==> Escape(value) == "\\" + EscChars(value)
    ensures !(|value| > 0 && value[0] == '"') ==> Escape(value) == EscChars(value)
  {
    PipelineIsPerCharacter(value);
    EscCharsLength(value);
  }

  // ---------------------------------------------------------------------
  // Reference: Tcl's backslash substitution (rule [9])

  /** The character `\c` stands for, or `None` for the forms this model does
      not interpret (octal, hex and Unicode escapes, backslash-newline). */
  function SubstChar(c: char): Option<char>
  {
    if c == 'a' then Some('\U{0007}')
    else if c == 'b' then Some('\U{0008}')
    else if c == 'f' then Some('\U{000C}')
    else if c == 'n' then Some('\n')
    else if c == 'r' then Some('\r')
    else if c == 't' then Some('\t')
    else if c == 'v' then Some('\U{000B}')
    else if ('0' <= c <= '7') || c == 'x' || c == 'u' || c == 'U' || c == '\n' then None
    else Some(c)
  }

  /** Backslash substitution over a whole text. */
  function BackslashSubst(s: string): Option<string>
  {
    if |s| == 0 then Some([])
    else if s[0] == '\\' then
      if |s| < 2 then None
      else
        var c :- SubstChar(s[1]);
        var rest :- BackslashSubst(s[2..]);
        Some([c] + rest)
    else
      var rest :- BackslashSubst(s[1..]);
      Some([s[0]] + rest)
  }

  /** Each character's escape is either the character itself (not a
      backslash) or a backslash pair that substitutes back to it. */
  lemma EscCharShape(c: char)
    ensures |EscChar(c)| == 1 ==> EscChar(c) == [c] && c != '\\' && !IsWordSpace(c) && c != '\n'
    ensures |EscChar(c)| == 1 || (|EscChar(c)| == 2 && EscChar(c)[0] == '\\' && SubstChar(EscChar(c)[1]) == Some(c))
  {
  }

  lemma SubstPair(d: char, t: string)
    ensures BackslashSubst(['\\', d] + t)
         == (var ch :- SubstChar(d); var r :- BackslashSubst(t); Some([ch] + r))
  {
    assert (['\\', d] + t)[2..] == t;
  }

  lemma SubstPlain(c: char, t: string)
    requires c != '\\'
    ensures BackslashSubst([c] + t) == (var r :- BackslashSubst(t); Some([c] + r))
  {
    assert ([c] + t)[1..] == t;
  }

  /** One character's escape substitutes back to the character. */
  lemma SubstEscChar(c: char, t: string)
    ensures BackslashSubst(EscChar(c) + t) == (var r :- BackslashSubst(t); Some([c] + r))
  {
    var e := EscChar(c);
    EscCharShape(c);
    if |e| == 2 {
      assert e == ['\\', e[1]];
      SubstPair(e[1], t);
    } else {
      SubstPlain(c, t);
    }
  }

  lemma {:induction false} SubstEscChars(x: string)
    ensures BackslashSubst(EscChars(x)) == Some(x)
  {
    if |x| > 0 {
      var t := EscChars(x[1..]);
      SubstEscChars(x[1..]);
      SubstEscChar(x[0], t);
      assert EscChars(x) == EscChar(x[0]) + t;
      assert x == [x[0]] + x[1..];
    }
  }

  lemma EscapeQuotedRoundTrip(value: string)
    requires |value| > 0 && value[0] == '"'
    ensures BackslashSubst(Escape(value)) == Some(value)
  {
    var t := EscChars(value[1..]);
    EscapeQuoted(value, []);
    assert Escape(value) + [] == Escape(value);
    assert Escape(value) == ['\\', '"'] + t;
    SubstEscChars(value[1..]);
    SubstPair('"', t);
    assert value == ['"'] + value[1..];
  }

  /** Undoing one backslash per escape (and `\n` back to a newline) recovers
      the input exactly. */
  lemma EscapeRoundTrip(value: string)
    ensures BackslashSubst(Escape(value)) == Some(value)
  {
    if |value| > 0 && value[0] == '"' {
      EscapeQuotedRoundTrip(value);
    } else {
      EscapeDecomposed(value);
      SubstEscChars(value);
    }
  }

  // ---------------------------------------------------------------------
  // Reference: splitting a Tcl command's arguments into words

  /** Characters that separate words inside one command. */
  predicate IsWordSpace(c: char)
  {
    c == ' ' || c == '\t' || c == '\r' || c == '\U{000B}' || c == '\U{000C}'
  }

  /** Characters that end a command or start a variable or command
      substitution; word splitting across them is not modelled. */
  predicate IsUnmodelled(c: char)
  {
    c == '$' || c == '[' || c == ';' || c == '\n'
  }

  /** Reads one bare word (no quotes, no braces) from the front of `s`,
      applying backslash substitution; returns the word and the rest,
      which is empty or starts with a separator. */
  function ScanWord(s: string): (r: Option<(string, string)>)
    ensures r.Some? ==> |r.value.1| <= |s|
    ensures r.Some? && |s| > 0 && !IsWordSpace(s[0]) ==> |r.value.1| < |s|
    ensures r.Some? ==> r.value.1 == [] || IsWordSpace(r.value.1[0])
  {
    if |s| == 0 then Some(([], []))
    else if IsWordSpace(s[0]) then Some(([], s))
    else if IsUnmodelled(s[0]) then None
    else if s[0] == '\\' then
      if |s| < 2 then None
      else
        var c :- SubstChar(s[1]);
        var p :- ScanWord(s[2..]);
        Some(([c] + p.0, p.1))
    else
      var p :- ScanWord(s[1..]);
      Some(([s[0]] + p.0, p.1))
  }

  /** The words of a command's argument text, or `None` where it uses
      quoting, bracing or substitution forms outside this model. */
  function TclWords(s: string): Option<seq<string>>
    decreases |s|
  {
    if |s| == 0 then Some([])
    else if IsWordSpace(s[0]) then TclWords(s[1..])
    else if s[0] == '{' || s[0] == '"' then None
    else
      var p :- ScanWord(s);
      var ws :- TclWords(p.1);
      Some([p.0] + ws)
  }

  /** A value without `$`, `[` and `;`: Tcl applies no substitution other
      than backslash substitution to its escaped form. */
  predicate SubstitutionFree(x: string)
  {
    forall i | 0 <= i < |x| :: x[i] != '$' && x[i] != '[' && x[i] != ';'
  }

  lemma ScanPair(d: char, t: string)
    ensures ScanWord(['\\', d] + t)
         == (var ch :- SubstChar(d); var p :- ScanWord(t); Some(([ch] + p.0, p.1)))
  {
    assert (['\\', d] + t)[2..] == t;
  }

  lemma ScanPlain(c: char, t: string)
    requires c != '\\' && !IsWordSpace(c) && !IsUnmodelled(c)
    ensures ScanWord([c] + t) == (var p :- ScanWord(t); Some(([c] + p.0, p.1)))
  {
    assert ([c] + t)[1..] == t;
  }

  lemma SubstitutionFreeTail(x: string)
    requires |x| > 0 && SubstitutionFree(x)
    ensures SubstitutionFree(x[1..])
    ensures x[0] != '$' && x[0] != '[' && x[0] != ';'
  {
    forall i | 0 <= i < |x[1..]| ensures x[1..][i] != '$' && x[1..][i] != '[' && x[1..][i] != ';' {
      assert x[1..][i] == x[i + 1];
    }
  }

  /** One substitution-free character's escape scans back to the character. */
  lemma ScanEscChar(c: char, t: string)
    requires c != '$' && c != '[' && c != ';'
    ensures ScanWord(EscChar(c) + t) == (var p :- ScanWord(t); Some(([c] + p.0, p.1)))
  {
    var e := EscChar(c);
    EscCharShape(c);
    if |e| == 2 {
      assert e == ['\\', e[1]];
      ScanPair(e[1], t);
    } else {
      ScanPlain(c, t);
    }
  }

  lemma {:induction false} ScanEscChars(x: string, rest: string)
    requires SubstitutionFree(x)
    requires rest == [] || IsWordSpace(rest[0])
    ensures ScanWord(EscChars(x) + rest) == Some((x, rest))
  {
    if |x| == 0 {
      assert EscChars(x) + rest == rest;
    } else {
      SubstitutionFreeTail(x);
      var t := EscChars(x[1..]) + rest;
      ScanEscChars(x[1..], rest);
      ScanEscChar(x[0], t);
      assert EscChars(x) + rest == EscChar(x[0]) + t;
      assert x == [x[0]] + x[1..];
    }
  }

  /** The escaped form of a non-empty value starts a bare word. */
  lemma EscapeFirstChar(x: string)
    requires |x| > 0
    ensures |Escape(x)| > 0
    ensures Escape(x)[0] != '{' && Escape(x)[0] != '"' && !IsWordSpace(Escape(x)[0])
  {
    EscapeDecomposed(x);
    EscCharsLength(x);
  }

  /** A quote's escape is the quote itself. */
  lemma EscCharsQuoted(x: string)
    requires |x| > 0 && x[0] == '"'
    ensures EscChars(x) == ['"'] + EscChars(x[1..])
  {
    assert EscChar(x[0]) == ['"'];
  }

  lemma QuotePrefix(t: string, rest: string)
    ensures "\\" + (['"'] + t) + rest == ['\\', '"'] + (t + rest)
  {
  }

  lemma EscapeQuoted(x: string, rest: string)
    requires |x| > 0 && x[0] == '"'
    ensures Escape(x) + rest == ['\\', '"'] + (EscChars(x[1..]) + rest)
  {
    EscapeDecomposed(x);
    EscCharsQuoted(x);
    QuotePrefix(EscChars(x[1..]), rest);
  }

  /** An escaped quote in front of a scanned word joins that word. */
  lemma ScanQuote(t: string, y: string, rest: string)
    requires ScanWord(t) == Some((y, rest))
    ensures ScanWord(['\\', '"'] + t) == Some((['"'] + y, rest))
  {
    ScanPair('"', t);
    assert SubstChar('"') == Some('"');
  }

  /** A quote escaped in front of the escaped rest of a value is read back
      as that quote followed by the rest. */
  lemma ScanEscapedQuote(x: string, rest: string)
    requires |x| > 0 && x[0] == '"' && SubstitutionFree(x[1..])
    requires rest == [] || IsWordSpace(rest[0])
    ensures ScanWord(['\\', '"'] + (EscChars(x[1..]) + rest)) == Some((x, rest))
  {
    ScanEscChars(x[1..], rest);
    ScanQuote(EscChars(x[1..]) + rest, x[1..], rest);
    assert x == ['"'] + x[1..];
  }

  lemma ScanEscapeQuoted(x: string, rest: string)
    requires |x| > 0 && x[0] == '"' && SubstitutionFree(x)
    requires rest == [] || IsWordSpace(rest[0])
    ensures ScanWord(Escape(x) + rest) == Some((x, rest))
  {
    SubstitutionFreeTail(x);
    EscapeQuoted(x, rest);
    ScanEscapedQuote(x, rest);
  }

  lemma ScanEscapeUnquoted(x: string, rest: string)
    requires |x| > 0 && x[0] != '"' && SubstitutionFree(x)
    requires rest == [] || IsWordSpace(rest[0])
    ensures ScanWord(Escape(x) + rest) == Some((x, rest))
  {
    EscapeDecomposed(x);
    ScanEscChars(x, rest);
  }

  /** The escaped form of a non-empty value reads back as exactly one word. */
  lemma ScanEscape(x: string, rest: string)
    requires |x| > 0 && SubstitutionFree(x)
    requires rest == [] || IsWordSpace(rest[0])
    ensures ScanWord(Escape(x) + rest) == Some((x, rest))
  {
    if x[0] == '"' {
      ScanEscapeQuoted(x, rest);
    } else {
      ScanEscapeUnquoted(x, rest);
    }
  }

  lemma WordsOfEscapedWord(x: string, rest: string)
    requires |x| > 0 && SubstitutionFree(x)
    requires rest == [] || IsWordSpace(rest[0])
    ensures TclWords(Escape(x) + rest) == (var ws :- TclWords(rest); Some([x] + ws))
  {
    EscapeFirstChar(x);
    ScanEscape(x, rest);
    var s := Escape(x) + rest;
    assert s[0] == Escape(x)[0];
  }

  /** Escaping each value and joining with single spaces, as the do-scripts
      do, gives a text that Tcl splits back into exactly those values. */
  lemma {:induction false} WordsOfEscapedJoin(xs: seq<string>)
    requires forall i | 0 <= i < |xs| :: |xs[i]| > 0 && SubstitutionFree(xs[i])
    ensures TclWords(JoinWith(" ", EscapeAll(xs))) == Some(xs)
  {
    var e := EscapeAll(xs);
    if |xs| == 1 {
      assert JoinWith(" ", e) == Escape(xs[0]) + [];
      WordsOfEscapedWord(xs[0], []);
      assert xs == [xs[0]] + [];
    } else if |xs| > 1 {
      assert EscapeAll(xs[1..]) == e[1..];
      var tail := JoinWith(" ", e[1..]);
      assert JoinWith(" ", e) == Escape(xs[0]) + (" " + tail);
      WordsOfEscapedWord(xs[0], " " + tail);
      assert (" " + tail)[1..] == tail;
      WordsOfEscapedJoin(xs[1..]);
      assert xs == [xs[0]] + xs[1..];
    }
  }

  // ---------------------------------------------------------------------
  // Positional facts about the output

  lemma {:induction false} EscCharsNoNewline(s: string)
    ensures '\n' !in EscChars(s)
  {
    if |s| > 0 {
      EscCharsNoNewline(s[1..]);
    }
  }

  /** The output never holds a raw newline. */
  lemma EscapeNoNewline(value: string)
    ensures '\n' !in Escape(value)
  {
    EscapeDecomposed(value);
    EscCharsNoNewline(value);
  }

  /** A leading `"` is preceded by a backslash. */
  lemma EscapeLeadingQuote(value: string)
    requires |value| > 0 && value[0] == '"'
    ensures Escape(value)[..2] == "\\\""
  {
    EscapeDecomposed(value);
  }

  /** Every `\`, `{`, `}` and whitespace character of the input sits in the
      output right after a backslash (a newline as `\n`), and every other
      character is copied as is; position `i` of the input starts at output
      position `|Escape(value)| - |EscChars(value[i..])|`. */
  lemma EscapeAtPosition(value: string, i: int)
    requires 0 <= i < |value|
    ensures var k := |Escape(value)| - |EscChars(value[i..])|;
      && 0 <= k && k + 1 < |Escape(value)| + (if IsMagic(value[i]) || IsSpace(value[i]) then 0 else 1)
      && ((IsMagic(value[i]) || (IsSpace(value[i]) && value[i] != '\n')) ==>
            Escape(value)[k] == '\\' && Escape(value)[k + 1] == value[i])
      && (value[i] == '\n' ==> Escape(value)[k] == '\\' && Escape(value)[k + 1] == 'n')
      && (!IsMagic(value[i]) && !IsSpace(value[i]) ==> Escape(value)[k] == value[i])
  {
    EscapeDecomposed(value);
    assert value == value[..i] + value[i..];
    EscCharsAppend(value[..i], value[i..]);
    var tail := EscChars(value[i..]);
    assert tail == EscChar(value[i]) + EscChars(value[i + 1..]) by {
      assert value[i..][1..] == value[i + 1..];
    }
    var k := |Escape(value)| - |tail|;
    assert Escape(value)[k..] == tail;
    assert Escape(value)[k] == tail[0];
    if |EscChar(value[i])| == 2 {
      assert Escape(value)[k + 1] == tail[1];
    }
  }

  /** A value with no character to escape and no leading quote is left as is
      (so `$`, `[` and `;` pass through unescaped). */
  lemma {:induction false} EscapeIdentity(value: string)
    requires forall i | 0 <= i < |value| :: !IsMagic(value[i]) && !IsSpace(value[i])
    requires |value| > 0 ==> value[0] != '"'
    ensures Escape(value) == value
  {
    EscapeDecomposed(value);
    EscCharsIdentity(value);
  }

  lemma {:induction false} EscCharsIdentity(value: string)
    requires forall i | 0 <= i < |value| :: !IsMagic(value[i]) && !IsSpace(value[i])
    ensures EscChars(value) == value
  {
    if |value| > 0 {
      assert forall i | 0 <= i < |value[1..]| :: value[1..][i] == value[i + 1];
      EscCharsIdentity(value[1..]);
      assert value == [value[0]] + value[1..];
    }
  }
}
