/**
 * The fixed-format date match of ch04-core-es6-features/code.js, lines 80-85:
 * `/^(\d\d\d\d)-(\d\d)-(\d\d)$/.exec(s)`, read once by indexing the match
 * array and once by array destructuring.
 *
 * The regular expression is modelled by a matcher for anchored patterns made
 * of literal characters and capturing groups of single-character atoms. Such
 * a pattern has no quantifier and no alternative, so matching never needs to
 * backtrack: it consumes the input from left to right.
 */
module DateMatch {
  import opened Wrappers

  /** `\d` (ASCII digits only, as in JavaScript) or one literal character. */
  datatype Atom = Digit | Char(c: char)

  /** A literal character outside groups, or a capturing group `( ... )`. */
  datatype Piece = Literal(c: char) | Group(atoms: seq<Atom>)

  predicate IsDigit(c: char)
  {
    '0' <= c <= '9'
  }

  predicate AtomMatches(a: Atom, c: char)
  {
    match a
    case Digit => IsDigit(c)
    case Char(x) => c == x
  }

  predicate AtomsMatch(atoms: seq<Atom>, s: string)
  {
    |s| == |atoms| && forall i :: 0 <= i < |s| ==> AtomMatches(atoms[i], s[i])
  }

  function GroupCount(ps: seq<Piece>): nat
  {
    if ps == [] then 0
    else (if ps[0].Group? then 1 else 0) + GroupCount(ps[1..])
  }

  /** `gs` is a possible list of captures for `ps`: one string per group, each matching it. */
  predicate Fits(ps: seq<Piece>, gs: seq<string>)
  {
    if ps == [] then gs == []
    else match ps[0]
      case Literal(_) => Fits(ps[1..], gs)
      case Group(atoms) => |gs| > 0 && AtomsMatch(atoms, gs[0]) && Fits(ps[1..], gs[1..])
  }

  /** The string spelled by `ps` with its groups filled in by `gs`. */
  function Render(ps: seq<Piece>, gs: seq<string>): string
    requires Fits(ps, gs)
  {
    if ps == [] then ""
    else match ps[0]
      case Literal(c) => [c] + Render(ps[1..], gs)
      case Group(_) => gs[0] + Render(ps[1..], gs[1..])
  }

  /**
   * Matches all of `s` against `ps` (the pattern is anchored by `^` and `$`)
   * and returns the captured groups in order, or None when `s` does not match.
   */
  function MatchPieces(ps: seq<Piece>, s: string): (r: Option<seq<string>>)
    ensures r.Some? ==> |r.value| == GroupCount(ps)
  {
    if ps == [] then (if s == "" then Some([]) else None)
    else match ps[0]
      case Literal(c) =>
        if 0 < |s| && s[0] == c then MatchPieces(ps[1..], s[1..]) else None
      case Group(atoms) =>
        if |atoms| <= |s| && AtomsMatch(atoms, s[..|atoms|]) then
          match MatchPieces(ps[1..], s[|atoms|..])
          case Some(gs) => Some([s[..|atoms|]] + gs)
          case None => None
        else None
  }

  /** `re.exec(s)`: the match array `[whole match, group 1, ...]`, or `null` (None). */
  function Exec(ps: seq<Piece>, s: string): (r: Option<seq<string>>)
    ensures r.Some? ==> |r.value| == 1 + GroupCount(ps) && r.value[0] == s
  {
    match MatchPieces(ps, s)
    case Some(gs) => Some([s] + gs)
    case None => None
  }

  /** A successful match yields captures that fit the pattern and spell the input back. */
  lemma {:induction false} MatchSound(ps: seq<Piece>, s: string, gs: seq<string>)
    requires MatchPieces(ps, s) == Some(gs)
    ensures Fits(ps, gs) && Render(ps, gs) == s
  {
    if ps != [] {
      match ps[0]
      case Literal(c) =>
        MatchSound(ps[1..], s[1..], gs);
        assert s == [c] + s[1..];
      case Group(atoms) =>
        var n := |atoms|;
        MatchSound(ps[1..], s[n..], gs[1..]);
        assert gs == [s[..n]] + gs[1..];
        assert s == s[..n] + s[n..];
    }
  }

  /** Spelling out any fitting captures and matching the result gives the captures back. */
  lemma {:induction false} MatchRender(ps: seq<Piece>, gs: seq<string>)
    requires Fits(ps, gs)
    ensures MatchPieces(ps, Render(ps, gs)) == Some(gs)
  {
    if ps != [] {
      var s := Render(ps, gs);
      match ps[0]
      case Literal(c) =>
        MatchRender(ps[1..], gs);
        assert s[1..] == Render(ps[1..], gs);
      case Group(atoms) =>
        var n := |atoms|;
        MatchRender(ps[1..], gs[1..]);
        assert s[..n] == gs[0];
        assert s[n..] == Render(ps[1..], gs[1..]);
        assert [gs[0]] + gs[1..] == gs;
    }
  }

  /** `/^(\d\d\d\d)-(\d\d)-(\d\d)$/`. */
  const DatePattern: seq<Piece> :=
    [Group([Digit, Digit, Digit, Digit]), Literal('-'), Group([Digit, Digit]), Literal('-'), Group([Digit, Digit])]

  /** A string of `n` ASCII digits. */
  predicate Digits(s: string, n: nat)
  {
    |s| == n && forall i :: 0 <= i < |s| ==> IsDigit(s[i])
  }

  /** The strings the date pattern accepts, described directly: "dddd-dd-dd". */
  predicate IsDateString(s: string)
  {
    |s| == 10 && s[4] == '-' && s[7] == '-' &&
    forall i :: 0 <= i < 10 && i != 4 && i != 7 ==> IsDigit(s[i])
  }

  /** The tails of `DatePattern`, as the matcher walks through it. */
  lemma DatePatternTails()
    ensures DatePattern[1..] == [Literal('-'), Group([Digit, Digit]), Literal('-'), Group([Digit, Digit])]
    ensures DatePattern[1..][1..] == [Group([Digit, Digit]), Literal('-'), Group([Digit, Digit])]
    ensures DatePattern[1..][1..][1..] == [Literal('-'), Group([Digit, Digit])]
    ensures DatePattern[1..][1..][1..][1..] == [Group([Digit, Digit])]
    ensures DatePattern[1..][1..][1..][1..][1..] == []
  {
  }

  /** Captures for the last group `(\d\d)`. */
  lemma FitsDayGroup(x: seq<string>)
    ensures Fits([Group([Digit, Digit])], x) <==> |x| == 1 && Digits(x[0], 2)
  {
    assert [Group([Digit, Digit])][1..] == [];
    if |x| > 0 {
      assert x[1..] == [] <==> |x| == 1;
    }
  }

  /** Captures for `(\d\d)-(\d\d)`. */
  lemma FitsMonthDayGroups(x: seq<string>)
    ensures Fits([Group([Digit, Digit]), Literal('-'), Group([Digit, Digit])], x) <==>
              |x| == 2 && Digits(x[0], 2) && Digits(x[1], 2)
  {
    var p := [Group([Digit, Digit]), Literal('-'), Group([Digit, Digit])];
    assert p[1..] == [Literal('-'), Group([Digit, Digit])];
    assert p[1..][1..] == [Group([Digit, Digit])];
    if |x| > 0 {
      FitsDayGroup(x[1..]);
    }
  }

  lemma DatePatternFits(gs: seq<string>)
    ensures Fits(DatePattern, gs) <==>
              |gs| == 3 && Digits(gs[0], 4) && Digits(gs[1], 2) && Digits(gs[2], 2)
  {
    DatePatternTails();
    if |gs| > 0 {
      FitsMonthDayGroups(gs[1..]);
    }
  }

  lemma DatePatternRender(y: string, m: string, d: string)
    requires Digits(y, 4) && Digits(m, 2) && Digits(d, 2)
    ensures Fits(DatePattern, [y, m, d])
    ensures Render(DatePattern, [y, m, d]) == y + "-" + m + "-" + d
  {
    DatePatternFits([y, m, d]);
    DatePatternTails();
    var p2 := DatePattern[1..][1..];
    var p4 := p2[1..][1..];
    assert [y, m, d][1..] == [m, d] && [m, d][1..] == [d] && [d][1..] == [];
    assert Render(p4, [d]) == d;
    assert Render(p2, [m, d]) == m + "-" + d;
    assert Render(DatePattern, [y, m, d]) == y + ("-" + (m + "-" + d));
  }

  /** `/^(\d\d\d\d)-(\d\d)-(\d\d)$/.exec(s)`. */
  function ExecDate(s: string): (r: Option<seq<string>>)
    ensures r.Some? ==> |r.value| == 4 && r.value[0] == s
  {
    assert GroupCount(DatePattern) == 3;
    Exec(DatePattern, s)
  }

  /**
   * The pattern matches exactly the strings of four digits, '-', two digits,
   * '-', two digits; on a match the groups are the three digit runs and
   * `year + "-" + month + "-" + day` is the input again.
   */
  lemma ExecDateExactly(s: string)
    ensures ExecDate(s).Some? <==> IsDateString(s)
    ensures ExecDate(s).Some? ==>
              var g := ExecDate(s).value;
              Digits(g[1], 4) && Digits(g[2], 2) && Digits(g[3], 2) &&
              g[1] + "-" + g[2] + "-" + g[3] == s
  {
    match MatchPieces(DatePattern, s)
    case Some(gs) =>
      MatchSound(DatePattern, s, gs);
      DatePatternFits(gs);
      DatePatternRender(gs[0], gs[1], gs[2]);
      assert [gs[0], gs[1], gs[2]] == gs;
      var g := ExecDate(s).value;
      assert g == [s] + gs;
    case None =>
      if IsDateString(s) {
        var y, m, d := s[..4], s[5..7], s[8..];
        assert Digits(y, 4) && Digits(m, 2);
        assert Digits(d, 2) by {
          forall i | 0 <= i < 2 ensures IsDigit(d[i]) {
            assert d[i] == s[8 + i];
          }
        }
        DatePatternRender(y, m, d);
        assert y + "-" + m + "-" + d == s;
        MatchRender(DatePattern, [y, m, d]);
        assert false;
      }
  }

  /** Parsing a formatted date gives back its three parts. */
  lemma ExecDateFormat(y: string, m: string, d: string)
    requires Digits(y, 4) && Digits(m, 2) && Digits(d, 2)
    ensures ExecDate(y + "-" + m + "-" + d) == Some([y + "-" + m + "-" + d, y, m, d])
  {
    DatePatternRender(y, m, d);
    MatchRender(DatePattern, [y, m, d]);
    assert [y + "-" + m + "-" + d] + [y, m, d] == [y + "-" + m + "-" + d, y, m, d];
  }

  /** The string the snippet parses. */
  lemma ExecDateExample()
    ensures ExecDate("2999-12-31") == Some(["2999-12-31", "2999", "12", "31"])
  {
    assert Digits("2999", 4) && Digits("12", 2) && Digits("31", 2);
    ExecDateFormat("2999", "12", "31");
    assert "2999" + "-" + "12" + "-" + "31" == "2999-12-31";
  }

  /** A JavaScript value read out of a match array: a string, or `undefined`. */
  datatype JsValue = Str(s: string) | Undefined

  /** The three bindings `year`, `month` and `day`. */
  datatype Date = Date(year: JsValue, month: JsValue, day: JsValue)

  /** `arr[i]`: the element, or `undefined` past the end. */
  function Element(arr: seq<string>, i: nat): JsValue
  {
    if i < |arr| then Str(arr[i]) else Undefined
  }

  /** The number of names an array pattern binds. */
  function Bindings(slots: seq<bool>): nat
  {
    if slots == [] then 0 else (if slots[0] then 1 else 0) + Bindings(slots[1..])
  }

  /**
   * Array destructuring: each slot of `slots` takes the next value from the
   * array's iterator (`undefined` once it is exhausted); a `false` slot is a
   * hole that consumes a value without binding it.
   */
  function Destructure(arr: seq<string>, slots: seq<bool>): (r: seq<JsValue>)
    ensures |r| == Bindings(slots)
  {
    if slots == [] then []
    else
      var head := if arr == [] then Undefined else Str(arr[0]);
      var rest := if arr == [] then [] else arr[1..];
      (if slots[0] then [head] else []) + Destructure(rest, slots[1..])
  }

  /** Destructuring `[, a, b, c]` from a four-element array binds its elements 1, 2 and 3. */
  lemma DestructureSkipsFirst(arr: seq<string>)
    requires |arr| == 4
    ensures Destructure(arr, [false, true, true, true]) == [Str(arr[1]), Str(arr[2]), Str(arr[3])]
  {
    var slots := [false, true, true, true];
    assert slots[1..] == [true, true, true] && slots[1..][1..] == [true, true];
    assert slots[1..][1..][1..] == [true] && slots[1..][1..][1..][1..] == [];
    assert Destructure(arr[1..][1..][1..], [true]) == [Str(arr[3])];
    assert Destructure(arr[1..][1..], [true, true]) == [Str(arr[2]), Str(arr[3])];
    assert Destructure(arr[1..], [true, true, true]) == [Str(arr[1]), Str(arr[2]), Str(arr[3])];
  }

  /** On a date string the match array is the input followed by its three digit runs. */
  lemma ExecDateGroups(s: string)
    requires IsDateString(s)
    ensures ExecDate(s) == Some([s, s[..4], s[5..7], s[8..]])
  {
    ExecDateExactly(s);
    var g := ExecDate(s).value;
    var t := g[1] + "-" + g[2] + "-" + g[3];
    assert t == s;
    assert g[1] == t[..4] && g[2] == t[5..7] && g[3] == t[8..];
    assert g == [s, g[1], g[2], g[3]];
  }

  /**
   * Lines 80-83: `matchObj = re.exec(s)` and then `matchObj[1]`, `matchObj[2]`,
   * `matchObj[3]`. None stands for the TypeError thrown by indexing `null`,
   * which happens exactly for the strings that are not "dddd-dd-dd".
   */
  function IndexForm(s: string): (r: Option<Date>)
    ensures r.Some? <==> IsDateString(s)
    ensures r.Some? ==> r.value == Date(Str(s[..4]), Str(s[5..7]), Str(s[8..]))
  {
    ExecDateExactly(s);
    match ExecDate(s)
    case None => None
    case Some(matchObj) =>
      ExecDateGroups(s);
      Some(Date(Element(matchObj, 1), Element(matchObj, 2), Element(matchObj, 3)))
  }

  /**
   * Line 85: `const [, year, month, day] = re.exec(s)`. None stands for the
   * TypeError thrown by destructuring `null`. It binds what the index form binds.
   */
  function DestructureForm(s: string): (r: Option<Date>)
    ensures r == IndexForm(s)
  {
    ExecDateExactly(s);
    match ExecDate(s)
    case None => None
    case Some(matchObj) =>
      DestructureSkipsFirst(matchObj);
      var bound := Destructure(matchObj, [false, true, true, true]);
      Some(Date(bound[0], bound[1], bound[2]))
  }
}
