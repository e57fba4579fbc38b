/** Reading a do-script statement back the way Tcl splits it into words
    (rules [1]-[3] and [9] of the Tcl(n) manual page): which words a piece
    of script text contributes whatever separated text follows it, and how
    pieces joined by single spaces combine. This is the reference the
    Aldec do-scripts are checked against. */
module Words {
  import opened Common
  import opened Tcl
  import opened Flags

  /** Text that is empty or starts with a word separator. */
  predicate Separated(rest: string)
  {
    rest == [] || IsWordSpace(rest[0])
  }

  /** A character a bare word takes over as it is. */
  predicate PlainChar(c: char)
  {
    c != '\\' && !IsWordSpace(c) && !IsUnmodelled(c)
  }

  /** Literal text that may open a bare word: plain characters, not
      starting with a brace or a quote. */
  predicate Literal(p: string)
  {
    && (forall i | 0 <= i < |p| :: PlainChar(p[i]))
    && (|p| > 0 ==> p[0] != '{' && p[0] != '"')
  }

  /** A scan of the rest of a word, with `x` in front of what it read. */
  function Extend(x: string, q: Option<(string, string)>): Option<(string, string)>
  {
    match q
    case None => None
    case Some(p) => Some((x + p.0, p.1))
  }

  /** The words of the rest of a text, with `ws` in front. */
  function Prepend(ws: seq<string>, o: Option<seq<string>>): Option<seq<string>>
  {
    match o
    case None => None
    case Some(r) => Some(ws + r)
  }

  /** `t` reads as the words `ws`, whatever separated text follows it. */
  ghost predicate Reads(t: string, ws: seq<string>)
  {
    forall rest {:trigger TclWords(t + rest)} | Separated(rest) :: TclWords(t + rest) == Prepend(ws, TclWords(rest))
  }

  // ---------------------------------------------------------------------
  // Scanning one word

  /** A separated text ends the word being scanned at once. */
  lemma ScanSeparated(rest: string)
    requires Separated(rest)
    ensures ScanWord(rest) == Some(([], rest))
  {
  }

  /** Plain characters are copied into the word being scanned. */
  lemma {:induction false} ScanLiteral(p: string, t: string)
    requires forall i | 0 <= i < |p| :: PlainChar(p[i])
    ensures ScanWord(p + t) == Extend(p, ScanWord(t))
  {
    if |p| == 0 {
      assert p + t == t;
      match ScanWord(t)
      case None =>
      case Some(q) => assert p + q.0 == q.0;
    } else {
      assert forall i | 0 <= i < |p[1..]| :: p[1..][i] == p[i + 1];
      ScanLiteral(p[1..], t);
      Tcl.ScanPlain(p[0], p[1..] + t);
      assert p + t == [p[0]] + (p[1..] + t);
      match ScanWord(t)
      case None =>
      case Some(q) =>
        assert [p[0]] + (p[1..] + q.0) == p + q.0;
    }
  }

  /** One escaped character in front of escaped text that scans back to
      `x[1..]` makes the text scan back to `x`. */
  lemma ScanEscCharsCons(x: string, t: string)
    requires |x| > 0 && x[0] != '$' && x[0] != '[' && x[0] != ';'
    requires ScanWord(EscChars(x[1..]) + t) == Extend(x[1..], ScanWord(t))
    ensures ScanWord(EscChars(x) + t) == Extend(x, ScanWord(t))
  {
    var u := EscChars(x[1..]) + t;
    assert EscChars(x) + t == EscChar(x[0]) + u;
    ScanEscChar(x[0], u);
    assert ScanWord(EscChar(x[0]) + u) == Extend([x[0]], ScanWord(u));
    ExtendExtend([x[0]], x[1..], ScanWord(t));
    assert [x[0]] + x[1..] == x;
  }

  /** Escaped substitution-free characters scan back to themselves. */
  lemma {:induction false} ScanEscCharsAny(x: string, t: string)
    requires SubstitutionFree(x)
    ensures ScanWord(EscChars(x) + t) == Extend(x, ScanWord(t))
  {
    if |x| == 0 {
      assert EscChars(x) + t == t;
      match ScanWord(t)
      case None =>
      case Some(q) => assert x + q.0 == q.0;
    } else {
      SubstitutionFreeTail(x);
      ScanEscCharsAny(x[1..], t);
      ScanEscCharsCons(x, t);
    }
  }

  /** An escaped quote scans as a quote. */
  lemma ScanQuoteAny(u: string)
    ensures ScanWord(['\\', '"'] + u) == Extend(['"'], ScanWord(u))
  {
    assert (['\\', '"'] + u)[2..] == u;
    assert SubstChar('"') == Some('"');
  }

  lemma ExtendExtend(a: string, b: string, o: Option<(string, string)>)
    ensures Extend(a, Extend(b, o)) == Extend(a + b, o)
  {
    match o
    case None =>
    case Some(q) => assert a + (b + q.0) == a + b + q.0;
  }

  lemma ScanEscapeQuotedAny(x: string, t: string)
    requires |x| > 0 && x[0] == '"' && SubstitutionFree(x)
    ensures ScanWord(Escape(x) + t) == Extend(x, ScanWord(t))
  {
    SubstitutionFreeTail(x);
    var u := EscChars(x[1..]) + t;
    EscapeQuoted(x, t);
    assert Escape(x) + t == ['\\', '"'] + u;
    ScanQuoteAny(u);
    ScanEscCharsAny(x[1..], t);
    assert ScanWord(u) == Extend(x[1..], ScanWord(t));
    ExtendExtend(['"'], x[1..], ScanWord(t));
    assert ['"'] + x[1..] == x;
  }

  /** `as_tcl_value(x)` scans back to `x` inside a word, wherever the word
      goes on. */
  lemma ScanEscapeAny(x: string, t: string)
    requires |x| > 0 && SubstitutionFree(x)
    ensures ScanWord(Escape(x) + t) == Extend(x, ScanWord(t))
  {
    if x[0] == '"' {
      ScanEscapeQuotedAny(x, t);
    } else {
      EscapeDecomposed(x);
      ScanEscCharsAny(x, t);
    }
  }

  /** A text that opens a bare word and scans as `word` up to `rest`
      contributes `word` and then `rest`'s words. */
  lemma WordsOfScan(s: string, word: string, rest: string)
    requires |s| > 0 && !IsWordSpace(s[0]) && s[0] != '{' && s[0] != '"'
    requires ScanWord(s) == Some((word, rest))
    ensures TclWords(s) == Prepend([word], TclWords(rest))
  {
  }

  // ---------------------------------------------------------------------
  // Words of text pieces

  lemma ReadsEmpty()
    ensures Reads([], [])
  {
    forall rest | Separated(rest)
      ensures TclWords([] + rest) == Prepend([], TclWords(rest))
    {
      assert [] + rest == rest;
      match TclWords(rest)
      case None =>
      case Some(r) => assert [] + r == r;
    }
  }

  /** A literal prefix followed by an escaped value is one word: the
      prefix and the value. */
  lemma ReadsTagged(p: string, x: string)
    requires Literal(p) && |x| > 0 && SubstitutionFree(x)
    ensures Reads(p + Escape(x), [p + x])
  {
    forall rest | Separated(rest)
      ensures TclWords(p + Escape(x) + rest) == Prepend([p + x], TclWords(rest))
    {
      ReadsTaggedAt(p, x, rest);
    }
  }

  /** The words of a tagged value followed by one separated text. */
  lemma ReadsTaggedAt(p: string, x: string, rest: string)
    requires Literal(p) && |x| > 0 && SubstitutionFree(x) && Separated(rest)
    ensures TclWords(p + Escape(x) + rest) == Prepend([p + x], TclWords(rest))
  {
    var s := p + Escape(x) + rest;
    ScanTagged(p, x, rest);
    EscapeFirstChar(x);
    assert s == p + (Escape(x) + rest);
    assert s[0] == if |p| > 0 then p[0] else Escape(x)[0];
    WordsOfScan(s, p + x, rest);
  }

  /** A tagged value scans as one word up to a separated text. */
  lemma ScanTagged(p: string, x: string, rest: string)
    requires Literal(p) && |x| > 0 && SubstitutionFree(x) && Separated(rest)
    ensures ScanWord(p + Escape(x) + rest) == Some((p + x, rest))
  {
    ScanSeparated(rest);
    ScanEscapeAny(x, rest);
    assert ScanWord(Escape(x) + rest) == Some((x, rest)) by {
      assert x + [] == x;
    }
    ScanLiteral(p, Escape(x) + rest);
    assert p + Escape(x) + rest == p + (Escape(x) + rest);
  }

  /** An escaped value is one word: the value. */
  lemma ReadsWord(x: string)
    requires |x| > 0 && SubstitutionFree(x)
    ensures Reads(Escape(x), [x])
  {
    ReadsTagged("", x);
    assert "" + Escape(x) == Escape(x) && "" + x == x;
  }

  /** A literal word reads as itself. */
  lemma ReadsLiteral(w: string)
    requires Literal(w) && |w| > 0
    ensures Reads(w, [w])
  {
    forall rest | Separated(rest)
      ensures TclWords(w + rest) == Prepend([w], TclWords(rest))
    {
      ScanSeparated(rest);
      ScanLiteral(w, rest);
      assert w + [] == w;
      assert (w + rest)[0] == w[0];
      WordsOfScan(w + rest, w, rest);
    }
  }

  lemma ScanQualified(x: string, sep: string, y: string, rest: string)
    requires |x| > 0 && SubstitutionFree(x) && |y| > 0 && SubstitutionFree(y)
    requires forall i | 0 <= i < |sep| :: PlainChar(sep[i])
    requires Separated(rest)
    ensures ScanWord(Escape(x) + (sep + (Escape(y) + rest))) == Some((x + sep + y, rest))
  {
    ScanSeparated(rest);
    ScanEscapeAny(y, rest);
    assert y + [] == y;
    assert ScanWord(Escape(y) + rest) == Some((y, rest));
    ScanLiteral(sep, Escape(y) + rest);
    assert ScanWord(sep + (Escape(y) + rest)) == Some((sep + y, rest));
    ScanEscapeAny(x, sep + (Escape(y) + rest));
    assert x + (sep + y) == x + sep + y;
  }

  /** Two escaped values around a literal separator are one word. */
  lemma ReadsQualified(x: string, sep: string, y: string)
    requires |x| > 0 && SubstitutionFree(x) && |y| > 0 && SubstitutionFree(y)
    requires forall i | 0 <= i < |sep| :: PlainChar(sep[i])
    ensures Reads(Escape(x) + sep + Escape(y), [x + sep + y])
  {
    var t := Escape(x) + sep + Escape(y);
    forall rest | Separated(rest)
      ensures TclWords(t + rest) == Prepend([x + sep + y], TclWords(rest))
    {
      ReadsQualifiedAt(x, sep, y, rest);
    }
  }

  /** The words of a qualified name followed by one separated text. */
  lemma ReadsQualifiedAt(x: string, sep: string, y: string, rest: string)
    requires |x| > 0 && SubstitutionFree(x) && |y| > 0 && SubstitutionFree(y)
    requires forall i | 0 <= i < |sep| :: PlainChar(sep[i])
    requires Separated(rest)
    ensures TclWords(Escape(x) + sep + Escape(y) + rest) == Prepend([x + sep + y], TclWords(rest))
  {
    var u := sep + (Escape(y) + rest);
    EscapeFirstChar(x);
    ScanQualified(x, sep, y, rest);
    assert Escape(x) + sep + Escape(y) + rest == Escape(x) + u;
    assert (Escape(x) + u)[0] == Escape(x)[0];
    WordsOfScan(Escape(x) + u, x + sep + y, rest);
  }

  /** Pieces joined by one space read as their words in order. */
  lemma ReadsSpaced(t1: string, w1: seq<string>, t2: string, w2: seq<string>)
    requires Reads(t1, w1) && Reads(t2, w2)
    ensures Reads(t1 + " " + t2, w1 + w2)
  {
    forall rest | Separated(rest)
      ensures TclWords(t1 + " " + t2 + rest) == Prepend(w1 + w2, TclWords(rest))
    {
      var tail := " " + (t2 + rest);
      assert Separated(tail);
      assert t1 + " " + t2 + rest == t1 + tail;
      assert TclWords(tail) == TclWords(t2 + rest) by {
        assert tail[1..] == t2 + rest;
      }
      match TclWords(rest)
      case None =>
      case Some(r) => assert w1 + (w2 + r) == w1 + w2 + r;
    }
  }

  /** A trailing space adds no word. */
  lemma ReadsTrailingSpace(t: string, w: seq<string>)
    requires Reads(t, w)
    ensures Reads(t + " ", w)
  {
    forall rest | Separated(rest)
      ensures TclWords(t + " " + rest) == Prepend(w, TclWords(rest))
    {
      var tail := " " + rest;
      assert t + " " + rest == t + tail;
      assert TclWords(tail) == TclWords(rest) by {
        assert tail[1..] == rest;
      }
    }
  }

  /** The items of a list, each escaped behind the literal prefix `p` and
      joined by single spaces, read back as the prefixed items. */
  lemma {:induction false} ReadsTaggedJoin(p: string, xs: seq<string>)
    requires Literal(p)
    requires forall i | 0 <= i < |xs| :: |xs[i]| > 0 && SubstitutionFree(xs[i])
    ensures Reads(JoinWith(" ", Prefixed(p, EscapeAll(xs))), Prefixed(p, xs))
  {
    var ts := Prefixed(p, EscapeAll(xs));
    if |xs| == 0 {
      ReadsEmpty();
      assert Prefixed(p, xs) == [];
    } else {
      ReadsTagged(p, xs[0]);
      assert ts[0] == p + Escape(xs[0]);
      if |xs| == 1 {
        assert Prefixed(p, xs) == [p + xs[0]];
      } else {
        ReadsTaggedJoin(p, xs[1..]);
        assert Prefixed(p, EscapeAll(xs[1..])) == ts[1..];
        assert Prefixed(p, xs) == [p + xs[0]] + Prefixed(p, xs[1..]);
        ReadsSpaced(ts[0], [p + xs[0]], JoinWith(" ", ts[1..]), Prefixed(p, xs[1..]));
      }
    }
  }

  /** The items escaped and joined by single spaces read back as the items. */
  lemma ReadsEscapedJoin(xs: seq<string>)
    requires forall i | 0 <= i < |xs| :: |xs[i]| > 0 && SubstitutionFree(xs[i])
    ensures Reads(JoinWith(" ", EscapeAll(xs)), xs)
  {
    ReadsTaggedJoin("", xs);
    assert forall i | 0 <= i < |xs| :: "" + EscapeAll(xs)[i] == EscapeAll(xs)[i] && "" + xs[i] == xs[i];
    assert Prefixed("", EscapeAll(xs)) == EscapeAll(xs);
    assert Prefixed("", xs) == xs;
  }

  /** A field in front of further fields, joined by a single space, reads
      as its words followed by theirs. */
  lemma ReadsJoinCons(f: string, ws: seq<string>, fields: seq<string>, rest: seq<string>)
    requires |fields| > 0 && Reads(f, ws) && Reads(JoinWith(" ", fields), rest)
    ensures Reads(JoinWith(" ", [f] + fields), ws + rest)
  {
    assert ([f] + fields)[1..] == fields;
    ReadsSpaced(f, ws, JoinWith(" ", fields), rest);
  }

  lemma ReadsJoinOne(f: string, ws: seq<string>)
    requires Reads(f, ws)
    ensures Reads(JoinWith(" ", [f]), ws)
  {
  }

  /** Literal words in front of fields that read as `ws`. */
  lemma {:induction false} ReadsLiterals(lits: seq<string>, fields: seq<string>, ws: seq<string>)
    requires forall i | 0 <= i < |lits| :: Literal(lits[i]) && |lits[i]| > 0
    requires |fields| > 0 && Reads(JoinWith(" ", fields), ws)
    ensures Reads(JoinWith(" ", lits + fields), lits + ws)
  {
    if |lits| == 0 {
      assert lits + fields == fields && lits + ws == ws;
    } else {
      ReadsLiterals(lits[1..], fields, ws);
      ReadsLiteral(lits[0]);
      ReadsJoinCons(lits[0], [lits[0]], lits[1..] + fields, lits[1..] + ws);
      assert [lits[0]] + (lits[1..] + fields) == lits + fields;
      assert [lits[0]] + (lits[1..] + ws) == lits + ws;
    }
  }

  /** A statement's text, up to its final newline, reads as `words`. */
  ghost predicate Runs(stmt: string, words: seq<string>)
  {
    |stmt| > 0 && stmt[|stmt| - 1] == '\n' && TclWords(stmt[..|stmt| - 1]) == Some(words)
  }

  /** A text that reads as `words`, with a newline after it, runs them. */
  lemma RunsLine(t: string, words: seq<string>)
    requires Reads(t, words)
    ensures Runs(t + "\n", words)
  {
    assert (t + "\n")[..|t|] == t + [];
    assert Separated([]);
    assert TclWords(t + []) == Prepend(words, TclWords([]));
    assert words + [] == words;
  }
}
