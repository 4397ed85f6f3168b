/** `checkWild(pattern, str)` of findps.js and tkill.js: the first '*' of
    the pattern becomes '.*', and the result is used as a regular
    expression anchored at both ends. The model covers the part of the
    JavaScript regular-expression language such patterns use: literal
    characters, '.' (any character except a line terminator) and the '*'
    quantifier on the preceding atom. */
module Wild {
  import opened Common

  datatype Atom = Char(c: char) | AnyChar

  /** One atom, repeated any number of times when `star` is set. */
  datatype Piece = Piece(atom: Atom, star: bool)

  /** The characters '.' does not match. */
  predicate IsLineTerminator(c: char)
  {
    c == '\n' || c == '\r' || c == '\U{2028}' || c == '\U{2029}'
  }

  predicate AtomMatches(a: Atom, c: char)
  {
    match a
    case Char(x) => c == x
    case AnyChar => !IsLineTerminator(c)
  }

  /** `pattern.replace('*', '.*')`: a string pattern replaces its first
      occurrence only. */
  function ReplaceFirstStar(p: string): (r: string)
    ensures '*' !in p ==> r == p
    ensures '*' in p ==> var i := IndexOf(p, '*'); r == p[..i] + ['.'] + p[i..]
  {
    var i := IndexOf(p, '*');
    if i < 0 then p else p[..i] + ".*" + p[i + 1..]
  }

  /** The pieces of a regular expression, or the `SyntaxError` that
      `new RegExp` throws for a '*' with nothing to repeat. */
  function Compile(re: string): Result<seq<Piece>>
  {
    if re == [] then Ok([])
    else if re[0] == '*' then Err("SyntaxError: Nothing to repeat")
    else
      var atom := if re[0] == '.' then AnyChar else Char(re[0]);
      var star := |re| > 1 && re[1] == '*';
      var tail := Compile(if star then re[2..] else re[1..]);
      if tail.Err? then tail else Ok([Piece(atom, star)] + tail.value)
  }

  /** The expression cannot be built exactly when some '*' has nothing to
      repeat: it comes first, or right after another '*'. */
  lemma {:induction false} CompileFails(re: string)
    ensures Compile(re).Err? <==> exists i :: 0 <= i < |re| && re[i] == '*' && (i == 0 || re[i - 1] == '*')
  {
    if re != [] && re[0] != '*' {
      var star := |re| > 1 && re[1] == '*';
      CompileFails(if star then re[2..] else re[1..]);
      StarRun(re, star, Compile(if star then re[2..] else re[1..]).Err?);
    }
  }

  /** What relates the error condition of `Compile(re)` to that of the
      expression that is left once the first atom is read. */
  lemma StarRun(re: string, star: bool, tailErr: bool)
    requires re != [] && re[0] != '*' && star == (|re| > 1 && re[1] == '*')
    requires var rest := if star then re[2..] else re[1..];
      tailErr <==> exists i :: 0 <= i < |rest| && rest[i] == '*' && (i == 0 || rest[i - 1] == '*')
    ensures tailErr <==> exists i :: 0 <= i < |re| && re[i] == '*' && (i == 0 || re[i - 1] == '*')
  {
    var rest := if star then re[2..] else re[1..];
    var k := if star then 2 else 1;
    if tailErr {
      var i :| 0 <= i < |rest| && rest[i] == '*' && (i == 0 || rest[i - 1] == '*');
      assert re[i + k] == '*' && (i + k == 0 || re[i + k - 1] == '*');
    }
  }

  /** Whether the whole of `s` matches the pieces, as a backtracking
      matcher anchored by '^' and '$' decides it. */
  predicate Matches(ps: seq<Piece>, s: string)
    decreases |ps|, |s|
  {
    if ps == [] then s == []
    else if ps[0].star then
      Matches(ps[1..], s) || (s != [] && AtomMatches(ps[0].atom, s[0]) && Matches(ps, s[1..]))
    else
      s != [] && AtomMatches(ps[0].atom, s[0]) && Matches(ps[1..], s[1..])
  }

  /** `checkWild(pattern, str)`: whether `str` matches, or the error the
      regular expression constructor throws. */
  function CheckWild(pattern: string, str: string): Result<bool>
  {
    match Compile(ReplaceFirstStar(pattern))
    case Err(e) => Err(e)
    case Ok(ps) => Ok(Matches(ps, str))
  }

  // ---------------------------------------------------------------------
  // What a pattern matches

  /** A pattern with neither '*' nor '.' in it. */
  predicate Plain(p: string)
  {
    forall i :: 0 <= i < |p| ==> p[i] != '*' && p[i] != '.'
  }

  /** The pieces of a plain pattern: each character stands for itself. */
  function Literal(p: string): seq<Piece>
  {
    if p == [] then [] else [Piece(Char(p[0]), false)] + Literal(p[1..])
  }

  /** A plain prefix compiles to its literal pieces, followed by those of
      the rest, when the rest does not start with a quantifier. */
  lemma {:induction false} CompileLiteral(pre: string, rest: string)
    requires Plain(pre) && (rest == [] || rest[0] != '*')
    ensures Compile(pre + rest).Ok? == Compile(rest).Ok?
    ensures Compile(rest).Ok? ==> Compile(pre + rest).value == Literal(pre) + Compile(rest).value
  {
    if pre == [] {
      assert pre + rest == rest;
    } else {
      var re := pre + rest;
      assert re[1..] == pre[1..] + rest;
      assert |re| > 1 ==> re[1] != '*' by {
        if |pre| > 1 { assert re[1] == pre[1]; } else if |re| > 1 { assert re[1] == rest[0]; }
      }
      CompileLiteral(pre[1..], rest);
      CompileChar(re);
      if Compile(rest).Ok? {
        ConsAppend(Piece(Char(pre[0]), false), Literal(pre[1..]), Compile(rest).value);
      }
    }
  }

  /** A character that is neither a quantifier nor followed by one
      compiles to one literal piece. */
  lemma CompileChar(re: string)
    requires re != [] && re[0] != '*' && re[0] != '.' && (|re| > 1 ==> re[1] != '*')
    ensures Compile(re) == if Compile(re[1..]).Err? then Compile(re[1..])
                           else Ok([Piece(Char(re[0]), false)] + Compile(re[1..]).value)
  {
  }

  lemma ConsAppend(x: Piece, a: seq<Piece>, b: seq<Piece>)
    ensures [x] + (a + b) == [x] + a + b
  {
  }

  /** Literal pieces in front match exactly that text in front. */
  lemma {:induction false} MatchesLiteral(p: string, ps: seq<Piece>, s: string)
    ensures Matches(Literal(p) + ps, s) <==> |s| >= |p| && s[..|p|] == p && Matches(ps, s[|p|..])
  {
    if p == [] {
      assert Literal(p) + ps == ps;
    } else {
      var x := Piece(Char(p[0]), false);
      ConsAppend(x, Literal(p[1..]), ps);
      MatchesOne(x, Literal(p[1..]) + ps, s);
      if s != [] {
        MatchesLiteral(p[1..], ps, s[1..]);
        PrefixStep(p, s);
      }
    }
  }

  /** Matching a piece without '*' in front takes one character. */
  lemma MatchesOne(x: Piece, ps: seq<Piece>, s: string)
    requires !x.star
    ensures Matches([x] + ps, s) <==> s != [] && AtomMatches(x.atom, s[0]) && Matches(ps, s[1..])
  {
    assert ([x] + ps)[1..] == ps;
  }

  /** How a prefix test splits off its first character. */
  lemma PrefixStep(p: string, s: string)
    requires p != [] && s != []
    ensures |s| >= |p| ==> s[1..][|p| - 1..] == s[|p|..]
    ensures |s| >= |p| && s[..|p|] == p <==> s[0] == p[0] && |s[1..]| >= |p| - 1 && s[1..][..|p| - 1] == p[1..]
  {
    if |s| >= |p| {
      assert s[..|p|] == [s[0]] + s[1..][..|p| - 1];
      assert p == [p[0]] + p[1..];
    }
  }

  /** No character of `t` is a line terminator. */
  predicate NoLineTerminator(t: string)
  {
    forall i :: 0 <= i < |t| ==> !IsLineTerminator(t[i])
  }

  /** `t` is a run of characters other than line terminators followed by
      `suf`. */
  predicate RunThen(suf: string, t: string)
  {
    |t| >= |suf| && t[|t| - |suf|..] == suf && NoLineTerminator(t[..|t| - |suf|])
  }

  /** '.*' followed by literal text matches exactly such a run followed by
      that text. */
  lemma {:induction false} MatchesAnyRun(suf: string, t: string)
    ensures Matches([Piece(AnyChar, true)] + Literal(suf), t) <==> RunThen(suf, t)
    decreases |t|
  {
    var ps := [Piece(AnyChar, true)] + Literal(suf);
    assert Matches(ps, t) <==> t == suf || (t != [] && !IsLineTerminator(t[0]) && Matches(ps, t[1..])) by {
      assert ps[1..] == Literal(suf) + [];
      MatchesLiteral(suf, [], t);
    }
    RunThenStep(suf, t);
    if t != [] {
      MatchesAnyRun(suf, t[1..]);
    }
  }

  /** How `RunThen` unfolds by one character. */
  lemma RunThenStep(suf: string, t: string)
    ensures RunThen(suf, t) <==> t == suf || (t != [] && !IsLineTerminator(t[0]) && RunThen(suf, t[1..]))
  {
    if t == suf {
      assert t[|t| - |suf|..] == suf;
    } else if |t| > |suf| {
      assert t[1..][|t| - 1 - |suf|..] == t[|t| - |suf|..];
      assert t[..|t| - |suf|] == [t[0]] + t[1..][..|t| - 1 - |suf|];
    } else if |t| == |suf| {
      assert t[|t| - |suf|..] == t;
    }
  }

  /** The position `IndexOf` finds for the '*' after a star-free prefix. */
  lemma FirstStarAt(pre: string, suf: string)
    requires '*' !in pre
    ensures IndexOf(pre + "*" + suf, '*') == |pre|
  {
    var p := pre + "*" + suf;
    assert p[|pre|] == '*';
    assert p[..|pre|] == pre;
  }

  /** A '.' or a character with a '*' after it compiles to one repeated
      piece. */
  lemma CompileStarred(c: char, rest: string)
    requires c != '*'
    ensures var atom := if c == '.' then AnyChar else Char(c);
      Compile([c, '*'] + rest) ==
        if Compile(rest).Err? then Compile(rest) else Ok([Piece(atom, true)] + Compile(rest).value)
  {
    assert ([c, '*'] + rest)[2..] == rest;
  }

  /** A '.' with no '*' after it compiles to one piece that matches any
      character but a line terminator. */
  lemma CompileDot(rest: string)
    requires rest == [] || rest[0] != '*'
    ensures Compile(['.'] + rest) ==
      if Compile(rest).Err? then Compile(rest) else Ok([Piece(AnyChar, false)] + Compile(rest).value)
  {
    assert (['.'] + rest)[1..] == rest;
  }

  /** A pattern with no '*' and no '.' matches only the same text. */
  lemma CheckWildPlain(p: string, s: string)
    requires Plain(p)
    ensures CheckWild(p, s) == Ok(s == p)
  {
    assert '*' !in p;
    CompileLiteral(p, []);
    assert p + [] == p;
    MatchesLiteral(p, [], s);
    assert Literal(p) + [] == Literal(p);
  }

  /** The pieces `prefix*suffix` compiles to, with plain parts. */
  lemma CompileStar(pre: string, suf: string)
    requires Plain(pre) && Plain(suf)
    ensures Compile(ReplaceFirstStar(pre + "*" + suf)) == Ok(Literal(pre) + ([Piece(AnyChar, true)] + Literal(suf)))
  {
    assert '*' !in pre;
    var p := pre + "*" + suf;
    FirstStarAt(pre, suf);
    assert p[..|pre|] == pre && p[|pre| + 1..] == suf;
    assert ReplaceFirstStar(p) == pre + (['.', '*'] + suf);
    CompileLiteral(suf, []);
    assert suf + [] == suf;
    assert Literal(suf) + [] == Literal(suf);
    CompileStarred('.', suf);
    CompileLiteral(pre, ['.', '*'] + suf);
  }

  /** `prefix*suffix` with plain parts matches text that starts with the
      prefix and ends with the suffix, without overlap, and has no line
      terminator in between. */
  lemma CheckWildStar(pre: string, suf: string, s: string)
    requires Plain(pre) && Plain(suf)
    ensures CheckWild(pre + "*" + suf, s) == Ok(
      && |s| >= |pre| + |suf|
      && s[..|pre|] == pre
      && s[|s| - |suf|..] == suf
      && NoLineTerminator(s[|pre|..|s| - |suf|]))
  {
    CompileStar(pre, suf);
    MatchesStar(pre, suf, s);
  }

  lemma MatchesStar(pre: string, suf: string, s: string)
    ensures Matches(Literal(pre) + ([Piece(AnyChar, true)] + Literal(suf)), s) <==>
      && |s| >= |pre| + |suf|
      && s[..|pre|] == pre
      && s[|s| - |suf|..] == suf
      && NoLineTerminator(s[|pre|..|s| - |suf|])
  {
    MatchesLiteral(pre, [Piece(AnyChar, true)] + Literal(suf), s);
    if |s| >= |pre| {
      MatchesAnyRun(suf, s[|pre|..]);
      RunThenAfter(pre, suf, s);
    }
  }

  /** `RunThen` on what follows a prefix, in terms of the whole text. */
  lemma RunThenAfter(pre: string, suf: string, s: string)
    requires |s| >= |pre|
    ensures RunThen(suf, s[|pre|..]) <==>
      |s| >= |pre| + |suf| && s[|s| - |suf|..] == suf && NoLineTerminator(s[|pre|..|s| - |suf|])
  {
    var t := s[|pre|..];
    if |t| >= |suf| {
      assert t[|t| - |suf|..] == s[|s| - |suf|..];
      assert t[..|t| - |suf|] == s[|pre|..|s| - |suf|];
    }
  }

  /** The pieces `prefix.suffix` compiles to, with plain parts. */
  lemma CompileDotPattern(pre: string, suf: string)
    requires Plain(pre) && Plain(suf)
    ensures Compile(ReplaceFirstStar(pre + "." + suf)) == Ok(Literal(pre) + ([Piece(AnyChar, false)] + Literal(suf)))
  {
    var p := pre + (['.'] + suf);
    assert '*' !in pre && '*' !in suf;
    assert pre + "." + suf == p;
    CompileLiteral(suf, []);
    assert suf + [] == suf;
    assert Literal(suf) + [] == Literal(suf);
    CompileDot(suf);
    CompileLiteral(pre, ['.'] + suf);
  }

  /** `prefix.suffix` with plain parts matches the prefix, any one
      character other than a line terminator, and the suffix. */
  lemma CheckWildDot(pre: string, suf: string, s: string)
    requires Plain(pre) && Plain(suf)
    ensures CheckWild(pre + "." + suf, s) == Ok(
      && |s| == |pre| + 1 + |suf|
      && s[..|pre|] == pre
      && !IsLineTerminator(s[|pre|])
      && s[|pre| + 1..] == suf)
  {
    CompileDotPattern(pre, suf);
    var tail := [Piece(AnyChar, false)] + Literal(suf);
    MatchesLiteral(pre, tail, s);
    if |s| > |pre| {
      var t := s[|pre|..];
      assert tail[1..] == Literal(suf) + [];
      MatchesLiteral(suf, [], t[1..]);
      assert t[0] == s[|pre|] && t[1..] == s[|pre| + 1..];
    }
  }

  /** The default pattern '*' matches any text without a line terminator. */
  lemma CheckWildAll(s: string)
    ensures CheckWild("*", s) == Ok(NoLineTerminator(s))
  {
    var e: string := [];
    CheckWildStar(e, e, s);
    assert e + "*" + e == "*";
    assert s[|e|..|s| - |e|] == s;
  }

  /** Only the first '*' is a wildcard: `a*b*` becomes `a.*b*`, whose
      second '*' repeats the 'b', so it matches text with no 'b' in it. */
  lemma OnlyFirstStarIsWild()
    ensures CheckWild("a*b*", "ac") == Ok(true)
  {
    var ps := [Piece(Char('a'), false), Piece(AnyChar, true), Piece(Char('b'), true)];
    CompileAStarB();
    assert Matches(ps[2..], []);
    assert Matches(ps[1..], "c") by {
      assert Matches(ps[1..], "c"[1..]);
    }
    assert Matches(ps, "ac") by { assert "ac"[1..] == "c"; }
  }

  lemma CompileAStarB()
    ensures Compile(ReplaceFirstStar("a*b*")) ==
      Ok([Piece(Char('a'), false), Piece(AnyChar, true), Piece(Char('b'), true)])
  {
    var tail2 := ['b', '*'];
    var tail1 := ['.', '*'] + tail2;
    var re := ['a'] + tail1;
    ReplaceAStarB(re);
    var none: string := [];
    CompileStarred('b', none);
    assert tail2 + none == tail2;
    var pb := [Piece(Char('b'), true)] + [];
    assert Compile(tail2) == Ok(pb);
    CompileStarred('.', tail2);
    var pt := [Piece(AnyChar, true)] + pb;
    assert re[1..] == tail1;
    CompileChar(re);
    var ps := [Piece(Char('a'), false)] + pt;
    assert ps == [Piece(Char('a'), false), Piece(AnyChar, true), Piece(Char('b'), true)];
  }

  lemma ReplaceAStarB(re: string)
    requires re == ['a'] + (['.', '*'] + ['b', '*'])
    ensures ReplaceFirstStar("a*b*") == re
  {
    FirstStarAt("a", "b*");
    assert "a" + "*" + "b*" == "a*b*";
  }

  /** A '*' right after the first one has nothing to repeat, so the
      regular expression cannot be built. */
  lemma DoubleStarThrows(pre: string, rest: string, s: string)
    requires '*' !in pre
    ensures CheckWild(pre + "**" + rest, s).Err?
  {
    var p := pre + "**" + rest;
    assert p == pre + "*" + ("*" + rest);
    FirstStarAt(pre, "*" + rest);
    var re := ReplaceFirstStar(p);
    assert re[|pre| + 2] == '*' && re[|pre| + 1] == '*';
    CompileFails(re);
  }
}
