/** Timescale validation in `Simulator.__init__`: a timescale is accepted when
    it is absent or fully matches `\d+[npu]?s/\d+[npu]?s`, and otherwise the
    constructor raises `ValueError("Invalid timescale: <value>")`.

    The matcher is a deterministic automaton, as a regular-expression engine
    runs it; `MatchesPattern` is the pattern's language written out
    directly, and `AcceptsIffPattern` proves the two agree. */
module Timescale {
  import opened Common

  /** ASCII digits (Python's `\d` also takes other Unicode decimal digits). */
  predicate IsDigit(c: char)
  {
    '0' <= c <= '9'
  }

  predicate IsUnit(c: char)
  {
    c == 'n' || c == 'p' || c == 'u'
  }

  predicate AllDigits(s: string)
  {
    forall i | 0 <= i < |s| :: IsDigit(s[i])
  }

  /** `\d+[npu]?s`: digits, an optional unit prefix, then `s`. */
  predicate IsHalf(s: string)
  {
    && |s| >= 2
    && s[|s| - 1] == 's'
    && (AllDigits(s[..|s| - 1]) || (|s| >= 3 && IsUnit(s[|s| - 2]) && AllDigits(s[..|s| - 2])))
  }

  /** The language of `\d+[npu]?s/\d+[npu]?s`, as `re.fullmatch` reads it. */
  predicate MatchesPattern(s: string)
  {
    exists i | 0 <= i < |s| :: s[i] == '/' && IsHalf(s[..i]) && IsHalf(s[i + 1..])
  }

  // ---------------------------------------------------------------------
  // The automaton

  datatype Phase = NeedDigit | Digits | AfterUnit | AfterS

  /** `second` tells whether the `/` has been read. */
  datatype State = At(phase: Phase, second: bool) | Dead

  function Step(q: State, c: char): State
  {
    match q
    case Dead => Dead
    case At(p, second) =>
      match p
      case NeedDigit => if IsDigit(c) then At(Digits, second) else Dead
      case Digits =>
        if IsDigit(c) then At(Digits, second)
        else if IsUnit(c) then At(AfterUnit, second)
        else if c == 's' then At(AfterS, second)
        else Dead
      case AfterUnit => if c == 's' then At(AfterS, second) else Dead
      case AfterS => if c == '/' && !second then At(NeedDigit, true) else Dead
  }

  function Run(q: State, s: string): State
    decreases |s|
  {
    if |s| == 0 then q else Run(Step(q, s[0]), s[1..])
  }

  predicate Accepts(s: string)
  {
    Run(At(NeedDigit, false), s) == At(AfterS, true)
  }

  /** The timescale check of the constructor. */
  function ValidateTimescale(timescale: Option<string>): (r: Result<Option<string>>)
    ensures r.Success? <==> (timescale.None? || MatchesPattern(timescale.value))
    ensures r.Success? ==> r.value == timescale
    ensures r.Failure? ==> r.error == ValueError("Invalid timescale: " + timescale.value)
  {
    if timescale.None? then Success(None)
    else
      AcceptsIffPattern(timescale.value);
      if Accepts(timescale.value) then Success(timescale)
      else Failure(ValueError("Invalid timescale: " + timescale.value))
  }

  // ---------------------------------------------------------------------
  // Correctness of the automaton

  /** What is left of a half after its first digit: `\d*[npu]?s`. */
  predicate Tail(t: string)
  {
    || (|t| >= 1 && t[|t| - 1] == 's' && AllDigits(t[..|t| - 1]))
    || (|t| >= 2 && t[|t| - 1] == 's' && IsUnit(t[|t| - 2]) && AllDigits(t[..|t| - 2]))
  }

  lemma AllDigitsCons(c: char, x: string)
    ensures AllDigits([c] + x) <==> IsDigit(c) && AllDigits(x)
  {
    if IsDigit(c) && AllDigits(x) {
      forall i | 0 <= i < |[c] + x| ensures IsDigit(([c] + x)[i]) {
        if i > 0 {
          assert ([c] + x)[i] == x[i - 1];
        }
      }
    }
    if AllDigits([c] + x) {
      assert IsDigit(([c] + x)[0]);
      forall i | 0 <= i < |x| ensures IsDigit(x[i]) {
        assert x[i] == ([c] + x)[i + 1];
      }
    }
  }

  lemma HalfCons(c: char, t: string)
    ensures IsHalf([c] + t) <==> IsDigit(c) && Tail(t)
  {
    var s := [c] + t;
    if |t| >= 1 {
      assert s[..|s| - 1] == [c] + t[..|t| - 1];
      AllDigitsCons(c, t[..|t| - 1]);
      assert s[|s| - 1] == t[|t| - 1];
    }
    if |t| >= 2 {
      assert s[..|s| - 2] == [c] + t[..|t| - 2];
      AllDigitsCons(c, t[..|t| - 2]);
      assert s[|s| - 2] == t[|t| - 2];
    }
  }

  lemma TailCons(c: char, t: string)
    ensures Tail([c] + t) <==> (IsDigit(c) && Tail(t)) || (IsUnit(c) && t == "s") || (c == 's' && t == "")
  {
    var s := [c] + t;
    if |t| == 0 {
      assert s == [c];
      assert s[..0] == [];
    } else {
      assert s[..|s| - 1] == [c] + t[..|t| - 1];
      AllDigitsCons(c, t[..|t| - 1]);
      assert s[|s| - 1] == t[|t| - 1];
      if |t| == 1 {
        assert s[..|s| - 2] == [];
        assert s[|s| - 2] == c;
        assert t[..0] == [];
      } else {
        assert s[..|s| - 2] == [c] + t[..|t| - 2];
        AllDigitsCons(c, t[..|t| - 2]);
        assert s[|s| - 2] == t[|t| - 2];
        if IsUnit(c) {
          assert !IsDigit(c);
          assert t != "s";
        }
        if c == 's' {
          assert !IsDigit(c);
        }
      }
    }
  }

  lemma {:induction false} RunDead(s: string)
    ensures Run(Dead, s) == Dead
  {
    if |s| > 0 {
      RunDead(s[1..]);
    }
  }

  /** The language accepted from each phase of a half. */
  predicate HalfFrom(p: Phase, s: string)
  {
    match p
    case NeedDigit => IsHalf(s)
    case Digits => Tail(s)
    case AfterUnit => s == "s"
    case AfterS => s == ""
  }

  lemma {:induction false} SecondHalf(p: Phase, s: string)
    ensures Run(At(p, true), s) == At(AfterS, true) <==> HalfFrom(p, s)
    decreases |s|
  {
    if |s| == 0 {
      if p == NeedDigit {
        assert !IsHalf(s);
      }
    } else {
      var c, t := s[0], s[1..];
      assert s == [c] + t;
      var q := Step(At(p, true), c);
      assert Run(At(p, true), s) == Run(q, t);
      if q == Dead {
        RunDead(t);
      } else {
        SecondHalf(q.phase, t);
      }
      match p {
        case NeedDigit => HalfCons(c, t);
        case Digits => TailCons(c, t);
        case AfterUnit =>
        case AfterS =>
      }
    }
  }

  /** Reading the first half: the run from phase `p` accepts exactly the
      texts made of the rest of a first half, a `/` and a second half. */
  predicate SplitsFrom(p: Phase, s: string)
  {
    exists i | 0 <= i < |s| :: s[i] == '/' && HalfFrom(p, s[..i]) && IsHalf(s[i + 1..])
  }

  /** A split of `[c] + t` never happens at position 0 unless `c` is the
      `/` ending an empty rest of a first half; any later split of `[c] + t`
      is a split of `t` one position earlier. */
  lemma SplitAt(c: char, t: string, p: Phase, i: int)
    requires 0 <= i < |t| + 1
    ensures var s := [c] + t;
      i == 0 ==> (s[i] == '/' && HalfFrom(p, s[..i]) <==> c == '/' && HalfFrom(p, []))
    ensures var s := [c] + t;
      i > 0 ==> s[i] == t[i - 1] && s[..i] == [c] + t[..i - 1] && s[i + 1..] == t[i..]
  {
    var s := [c] + t;
    if i == 0 {
      assert s[..0] == [];
    }
  }

  /** Splitting `[c] + t` at `i + 1` is splitting `t` at `i` after `c`. */
  lemma ShiftSplit(c: char, t: string, p: Phase, p': Phase)
    requires forall j | 0 <= j < |t| :: HalfFrom(p, [c] + t[..j]) <==> HalfFrom(p', t[..j])
    requires !(c == '/' && HalfFrom(p, []))
    ensures SplitsFrom(p, [c] + t) <==> SplitsFrom(p', t)
  {
    var s := [c] + t;
    if SplitsFrom(p, s) {
      var i :| 0 <= i < |s| && s[i] == '/' && HalfFrom(p, s[..i]) && IsHalf(s[i + 1..]);
      SplitAt(c, t, p, i);
      assert i != 0;
      assert t[i - 1] == '/' && HalfFrom(p', t[..i - 1]) && IsHalf(t[i..]);
    }
    if SplitsFrom(p', t) {
      var j :| 0 <= j < |t| && t[j] == '/' && HalfFrom(p', t[..j]) && IsHalf(t[j + 1..]);
      SplitAt(c, t, p, j + 1);
      assert s[j + 1] == '/' && HalfFrom(p, s[..j + 1]) && IsHalf(s[j + 2..]);
    }
  }

  lemma NoSplit(c: char, t: string, p: Phase)
    requires forall j | 0 <= j < |t| :: !HalfFrom(p, [c] + t[..j])
    requires !(c == '/' && HalfFrom(p, []))
    ensures !SplitsFrom(p, [c] + t)
  {
    var s := [c] + t;
    forall i | 0 <= i < |s|
      ensures !(s[i] == '/' && HalfFrom(p, s[..i]) && IsHalf(s[i + 1..]))
    {
      SplitAt(c, t, p, i);
    }
  }

  lemma {:induction false} FirstHalf(p: Phase, s: string)
    ensures Run(At(p, false), s) == At(AfterS, true) <==> SplitsFrom(p, s)
    decreases |s|
  {
    if |s| > 0 {
      var c, t := s[0], s[1..];
      assert s == [c] + t;
      var q := Step(At(p, false), c);
      assert Run(At(p, false), s) == Run(q, t);
      if q == Dead {
        RunDead(t);
      }
      match p {
        case NeedDigit =>
          forall j | 0 <= j < |t| ensures HalfFrom(p, [c] + t[..j]) <==> IsDigit(c) && Tail(t[..j]) {
            HalfCons(c, t[..j]);
          }
          if IsDigit(c) {
            FirstHalf(Digits, t);
            ShiftSplit(c, t, p, Digits);
          } else {
            NoSplit(c, t, p);
          }
        case Digits =>
          forall j | 0 <= j < |t|
            ensures HalfFrom(p, [c] + t[..j])
              <==> (IsDigit(c) && Tail(t[..j])) || (IsUnit(c) && t[..j] == "s") || (c == 's' && t[..j] == "")
          {
            TailCons(c, t[..j]);
          }
          if IsDigit(c) {
            FirstHalf(Digits, t);
            ShiftSplit(c, t, p, Digits);
          } else if IsUnit(c) {
            FirstHalf(AfterUnit, t);
            ShiftSplit(c, t, p, AfterUnit);
          } else if c == 's' {
            FirstHalf(AfterS, t);
            ShiftSplit(c, t, p, AfterS);
          } else {
            NoSplit(c, t, p);
          }
        case AfterUnit =>
          forall j | 0 <= j < |t| ensures HalfFrom(p, [c] + t[..j]) <==> c == 's' && t[..j] == "" {
            assert |[c] + t[..j]| == j + 1;
            if j == 0 {
              assert [c] + t[..j] == [c];
            }
          }
          if c == 's' {
            FirstHalf(AfterS, t);
            ShiftSplit(c, t, p, AfterS);
          } else {
            NoSplit(c, t, p);
          }
        case AfterS =>
          forall j | 0 <= j < |t| ensures !HalfFrom(p, [c] + t[..j]) {
          }
          if c == '/' {
            SecondHalf(NeedDigit, t);
            assert s[..0] == "" && s[1..] == t;
            if SplitsFrom(p, s) {
              var i :| 0 <= i < |s| && s[i] == '/' && HalfFrom(p, s[..i]) && IsHalf(s[i + 1..]);
              assert |s[..i]| == i;
            }
          } else {
            NoSplit(c, t, p);
          }
      }
    }
  }

  /** The automaton accepts exactly the pattern's language. */
  lemma AcceptsIffPattern(s: string)
    ensures Accepts(s) <==> MatchesPattern(s)
  {
    FirstHalf(NeedDigit, s);
  }

  /** The cases exercised by the project's own tests. */
  lemma RejectsMissingPrecision()
    ensures ValidateTimescale(Some("1ns")) == Failure(ValueError("Invalid timescale: 1ns"))
  {
    assert Run(At(NeedDigit, false), "1ns") == At(AfterS, false);
  }

  lemma RejectsUnknownUnit()
    ensures ValidateTimescale(Some("1qs/1s")) == Failure(ValueError("Invalid timescale: 1qs/1s"))
  {
    assert Step(At(Digits, false), 'q') == Dead;
    assert Run(At(NeedDigit, false), "1qs/1s") == Run(Dead, "s/1s");
    RunDead("s/1s");
  }

  lemma AcceptsEqualUnits()
    ensures ValidateTimescale(Some("1ns/1ns")) == Success(Some("1ns/1ns"))
  {
    assert Run(At(NeedDigit, false), "1ns/1ns") == At(AfterS, true);
  }

  /** Running over a concatenation runs over each part in turn. */
  lemma {:induction false} RunAppend(q: State, a: string, b: string)
    ensures Run(q, a + b) == Run(Run(q, a), b)
    decreases |a|
  {
    if |a| > 0 {
      assert (a + b)[1..] == a[1..] + b;
      RunAppend(Step(q, a[0]), a[1..], b);
    } else {
      assert a + b == b;
    }
  }

  lemma AcceptsLongerMagnitudes()
    ensures ValidateTimescale(Some("100ns/100ns")) == Success(Some("100ns/100ns"))
  {
    assert "100ns/100ns" == "100ns/" + "100ns";
    RunAppend(At(NeedDigit, false), "100ns/", "100ns");
    assert Run(At(NeedDigit, false), "100ns/") == At(NeedDigit, true);
    assert Run(At(NeedDigit, true), "100ns") == At(AfterS, true);
  }
}
