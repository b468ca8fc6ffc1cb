/** Splitting and number formatting as the Rust standard library does them. */
module Text {
  import opened Std

  const MAX_U64: nat := 0xFFFF_FFFF_FFFF_FFFF
  const MAX_U16: nat := 0xFFFF

  /** `str::split` on a set of separator characters: the pieces between them, empty ones included. */
  function Pieces(s: string, seps: set<char>): (r: seq<string>)
    ensures |r| >= 1
  {
    if s == "" then [""]
    else if s[0] in seps then [""] + Pieces(s[1..], seps)
    else
      var rest := Pieces(s[1..], seps);
      [[s[0]] + rest[0]] + rest[1..]
  }

  /** `str::split_once`. */
  function SplitOnce(s: string, sep: char): Option<(string, string)> {
    if s == "" then None
    else if s[0] == sep then Some(("", s[1..]))
    else
      var (a, b) :- SplitOnce(s[1..], sep);
      Some(([s[0]] + a, b))
  }

  predicate Free(s: string, seps: set<char>) {
    forall i | 0 <= i < |s| :: s[i] !in seps
  }

  lemma {:induction false} PiecesOfFree(s: string, seps: set<char>)
    requires Free(s, seps)
    ensures Pieces(s, seps) == [s]
  {
    if s != "" {
      PiecesOfFree(s[1..], seps);
      assert [s[0]] + s[1..] == s;
    }
  }

  /** A separator cuts the text in two independent halves. */
  lemma {:induction false} PiecesAppend(a: string, sep: char, b: string, seps: set<char>)
    requires sep in seps
    ensures Pieces(a + [sep] + b, seps) == Pieces(a, seps) + Pieces(b, seps)
  {
    if a == "" {
      assert a + [sep] + b == [sep] + b;
      assert ([sep] + b)[1..] == b;
    } else {
      var s := a + [sep] + b;
      assert s[1..] == a[1..] + [sep] + b;
      PiecesAppend(a[1..], sep, b, seps);
    }
  }

  const LINE_BREAKS: set<char> := {'\r', '\n'}

  predicate IsEol(eol: string) {
    eol == "\n" || eol == "\r\n"
  }

  /** A line end of two characters leaves an empty piece between them. */
  lemma PiecesOfLine(line: string, eol: string, rest: string)
    requires Free(line, LINE_BREAKS) && IsEol(eol)
    ensures Pieces(line + eol + rest, LINE_BREAKS) ==
              [line] + (if eol == "\n" then [] else [""]) + Pieces(rest, LINE_BREAKS)
  {
    hide Pieces;
    PiecesOfFree(line, LINE_BREAKS);
    if eol == "\n" {
      PiecesAppend(line, '\n', rest, LINE_BREAKS);
      assert [line] + [] + Pieces(rest, LINE_BREAKS) == [line] + Pieces(rest, LINE_BREAKS);
    } else {
      assert line + eol + rest == line + ['\r'] + (['\n'] + rest);
      PiecesAppend(line, '\r', ['\n'] + rest, LINE_BREAKS);
      assert [] + ['\n'] + rest == ['\n'] + rest;
      PiecesAppend([], '\n', rest, LINE_BREAKS);
      PiecesOfFree([], LINE_BREAKS);
      assert [line] + ([""] + Pieces(rest, LINE_BREAKS)) == [line] + [""] + Pieces(rest, LINE_BREAKS);
    }
  }

  lemma {:induction false} PiecesFree(s: string, seps: set<char>)
    ensures forall i | 0 <= i < |Pieces(s, seps)| :: Free(Pieces(s, seps)[i], seps)
  {
    if s != "" {
      PiecesFree(s[1..], seps);
    }
  }

  lemma {:induction false} SplitOnceFirst(a: string, sep: char, b: string)
    requires Free(a, {sep})
    ensures SplitOnce(a + [sep] + b, sep) == Some((a, b))
  {
    var s := a + [sep] + b;
    if a != "" {
      assert s[1..] == a[1..] + [sep] + b;
      SplitOnceFirst(a[1..], sep, b);
      assert [a[0]] + a[1..] == a;
    }
  }

  lemma {:induction false} SplitOnceJoins(s: string, sep: char)
    ensures SplitOnce(s, sep).Some? ==>
              var (a, b) := SplitOnce(s, sep).value; Free(a, {sep}) && s == a + [sep] + b
  {
    if s != "" {
      SplitOnceJoins(s[1..], sep);
      assert s == [s[0]] + s[1..];
    }
  }

  lemma {:induction false} SplitOnceNever(s: string, sep: char)
    requires Free(s, {sep})
    ensures SplitOnce(s, sep) == None
  {
    if s != "" {
      SplitOnceNever(s[1..], sep);
    }
  }

  /** Tokens joined by single spaces. */
  function Spaced(tokens: seq<string>): string
    requires tokens != []
  {
    if |tokens| == 1 then tokens[0] else tokens[0] + [' '] + Spaced(tokens[1..])
  }

  lemma {:induction false} PiecesOfSpaced(tokens: seq<string>)
    requires tokens != [] && forall t | t in tokens :: Free(t, {' '})
    ensures Pieces(Spaced(tokens), {' '}) == tokens
  {
    PiecesOfFree(tokens[0], {' '});
    if |tokens| > 1 {
      PiecesOfSpaced(tokens[1..]);
      PiecesAppend(tokens[0], ' ', Spaced(tokens[1..]), {' '});
    }
  }

  lemma {:induction false} SpacedFree(tokens: seq<string>, seps: set<char>)
    requires tokens != [] && ' ' !in seps && forall t | t in tokens :: Free(t, seps)
    ensures Free(Spaced(tokens), seps)
  {
    if |tokens| > 1 {
      assert tokens[0] in tokens;
      assert forall t | t in tokens[1..] :: t in tokens;
      SpacedFree(tokens[1..], seps);
    } else {
      assert tokens[0] in tokens;
    }
  }

  /** The pieces of a text free of some characters are free of them too. */
  lemma {:induction false} PiecesInherit(s: string, seps: set<char>, absent: set<char>)
    requires Free(s, absent)
    ensures forall p | p in Pieces(s, seps) :: Free(p, absent)
  {
    if s != "" {
      PiecesInherit(s[1..], seps, absent);
      var rest := Pieces(s[1..], seps);
      assert rest[0] in rest;
      assert forall p | p in rest[1..] :: p in rest;
    }
  }

  /** `char::is_whitespace`. */
  predicate White(c: char) {
    '\t' <= c <= '\r' || c == ' ' || c == '\U{85}' || c == '\U{A0}' || c == '\U{1680}' || '\U{2000}' <= c <= '\U{200A}'
    || c == '\U{2028}' || c == '\U{2029}' || c == '\U{202F}' || c == '\U{205F}' || c == '\U{3000}'
  }

  function TrimStart(s: string): string {
    if s != "" && White(s[0]) then TrimStart(s[1..]) else s
  }

  function TrimEnd(s: string): string {
    if s != "" && White(s[|s| - 1]) then TrimEnd(s[..|s| - 1]) else s
  }

  function Trim(s: string): string {
    TrimEnd(TrimStart(s))
  }

  lemma TrimNothing(s: string)
    requires forall i | 0 <= i < |s| :: !White(s[i])
    ensures Trim(s) == s
  {
  }

  lemma {:induction false} TrimBlanks(before: string, s: string, after: string)
    requires (forall i | 0 <= i < |before| :: White(before[i])) && (forall i | 0 <= i < |after| :: White(after[i]))
    requires s != "" && !White(s[0]) && !White(s[|s| - 1])
    ensures Trim(before + s + after) == s
    decreases |before|, |after|
  {
    hide White;
    var all := before + s + after;
    if before != "" {
      assert all[0] == before[0] && all[1..] == before[1..] + s + after;
      TrimBlanks(before[1..], s, after);
    } else {
      assert all == s + after && all[0] == s[0];
      if after != "" {
        assert all[|all| - 1] == after[|after| - 1] && all[..|all| - 1] == before + s + after[..|after| - 1];
        TrimBlanks(before, s, after[..|after| - 1]);
      } else {
        assert all == s;
      }
    }
  }

  function Lower(c: char): char {
    if 'A' <= c <= 'Z' then c + 32 as char else c
  }

  /** `eq_ignore_ascii_case`. */
  predicate EqIgnoreCase(a: string, b: string) {
    |a| == |b| && forall i | 0 <= i < |a| :: Lower(a[i]) == Lower(b[i])
  }

  predicate IsDigit(c: char) {
    '0' <= c <= '9'
  }

  /** `u64::to_string` and `u16::to_string`: decimal without leading zeros. */
  function Show(n: nat): (s: string)
    ensures |s| >= 1 && forall i | 0 <= i < |s| :: IsDigit(s[i])
  {
    var d := '0' + (n % 10) as char;
    if n < 10 then [d] else Show(n / 10) + [d]
  }

  /** The value of a string of digits, `None` for any other character. */
  function Digits(s: string): Option<nat> {
    if s == "" then Some(0)
    else if !IsDigit(s[|s| - 1]) then None
    else
      var high :- Digits(s[..|s| - 1]);
      Some(high * 10 + (s[|s| - 1] - '0') as nat)
  }

  /** `str::parse` for an unsigned integer: an optional `+`, at least one digit, no overflow. */
  function ParseUnsigned(s: string, max: nat): (r: Option<nat>)
    ensures r.Some? ==> r.value <= max
  {
    var digits := if s != "" && s[0] == '+' then s[1..] else s;
    if digits == "" then None
    else
      var n :- Digits(digits);
      if n <= max then Some(n) else None
  }

  lemma {:induction false} DigitsOfShow(n: nat)
    ensures Digits(Show(n)) == Some(n)
  {
    var d := '0' + (n % 10) as char;
    assert (d - '0') as nat == n % 10;
    if n < 10 {
      assert Show(n) == [d];
      assert Digits(Show(n)[..0]) == Some(0);
    } else {
      DigitsOfShow(n / 10);
      assert Show(n)[..|Show(n)| - 1] == Show(n / 10);
    }
  }

  /** Printing then parsing is the identity; the converse fails (`+7`, `007`). */
  lemma ParseShow(n: nat, max: nat)
    requires n <= max
    ensures ParseUnsigned(Show(n), max) == Some(n)
  {
    DigitsOfShow(n);
    assert IsDigit(Show(n)[0]);
  }

  lemma ShowInjective(m: nat, n: nat)
    requires Show(m) == Show(n)
    ensures m == n
  {
    DigitsOfShow(m);
    DigitsOfShow(n);
  }

  /** One sign is read over. */
  lemma ParsePlus(n: nat, max: nat)
    requires n <= max
    ensures ParseUnsigned("+" + Show(n), max) == Some(n)
  {
    hide Show;
    DigitsOfShow(n);
    assert ("+" + Show(n))[1..] == Show(n);
  }

  lemma {:induction false} DigitsOnly(s: string)
    ensures Digits(s).Some? <==> forall i | 0 <= i < |s| :: IsDigit(s[i])
  {
    if s != "" {
      var init := s[..|s| - 1];
      DigitsOnly(init);
      assert forall i | 0 <= i < |init| :: s[i] == init[i];
    }
  }

  /** Nothing else is: a number has at least one digit and no other character, and fits. */
  lemma ParsesOnlyNumbers(s: string, max: nat)
    ensures var digits := if s != "" && s[0] == '+' then s[1..] else s;
            ParseUnsigned(s, max).Some? <==>
              && digits != "" && (forall i | 0 <= i < |digits| :: IsDigit(digits[i]))
              && (Digits(digits).Some? ==> Digits(digits).value <= max)
  {
    DigitsOnly(if s != "" && s[0] == '+' then s[1..] else s);
  }

  /** A letter is equal to itself in the other case, and nothing else is equal to another character. */
  lemma CasesExactly(a: char, b: char)
    ensures EqIgnoreCase([a], [b]) <==>
              || a == b
              || ('A' <= a <= 'Z' && b as int == a as int + 32)
              || ('A' <= b <= 'Z' && a as int == b as int + 32)
  {
    assert EqIgnoreCase([a], [b]) <==> Lower([a][0]) == Lower([b][0]);
  }

  lemma CasesOfAll(a: string, b: string)
    ensures EqIgnoreCase(a, b) <==> |a| == |b| && forall i | 0 <= i < |a| :: EqIgnoreCase([a[i]], [b[i]])
  {
    forall i | 0 <= i < |a| && |a| == |b|
      ensures EqIgnoreCase([a[i]], [b[i]]) <==> Lower(a[i]) == Lower(b[i])
    {
      assert EqIgnoreCase([a[i]], [b[i]]) <==> Lower([a[i]][0]) == Lower([b[i]][0]);
    }
  }
}
