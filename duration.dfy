/** `parseTime`, shared word for word by gym.js and skip.js: a duration
    such as "1h 30m" in milliseconds. For each unit letter y, d, h, m, s
    the expression `/(\d+)\s*<unit>/` picks the first number written before
    that letter, and the five counts are weighted and summed.

    The regular expression is modelled by its leftmost match: the first
    position where a run of digits is followed by optional whitespace and
    the unit letter. `parseInt` is exact here (unbounded integers), so
    counts beyond 2^53 are not rounded as JavaScript would. */
module Duration {
  import opened Common

  /** Length of the run of digits starting at `i`. */
  function DigitRun(s: string, i: nat): (k: nat)
    requires i <= |s|
    ensures i + k <= |s|
    decreases |s| - i
  {
    if i < |s| && IsDigit(s[i]) then 1 + DigitRun(s, i + 1) else 0
  }

  /** The digit run is all digits, and stops at a non-digit or the end. */
  lemma {:induction false} DigitRunSpec(s: string, i: nat)
    requires i <= |s|
    ensures var k := DigitRun(s, i);
      && (forall j :: i <= j < i + k ==> IsDigit(s[j]))
      && (i + k == |s| || !IsDigit(s[i + k]))
    decreases |s| - i
  {
    if i < |s| && IsDigit(s[i]) {
      DigitRunSpec(s, i + 1);
    }
  }

  /** Length of the run of whitespace starting at `i`. */
  function SpaceRun(s: string, i: nat): (k: nat)
    requires i <= |s|
    ensures i + k <= |s|
    decreases |s| - i
  {
    if i < |s| && IsSpace(s[i]) then 1 + SpaceRun(s, i + 1) else 0
  }

  lemma {:induction false} SpaceRunSpec(s: string, i: nat)
    requires i <= |s|
    ensures var k := SpaceRun(s, i);
      && (forall j :: i <= j < i + k ==> IsSpace(s[j]))
      && (i + k == |s| || !IsSpace(s[i + k]))
    decreases |s| - i
  {
    if i < |s| && IsSpace(s[i]) {
      SpaceRunSpec(s, i + 1);
    }
  }

  /** The unit letters `parseTime` looks for. */
  predicate IsUnit(u: char)
  {
    u == 'y' || u == 'd' || u == 'h' || u == 'm' || u == 's'
  }

  /** `s[p..]` starts with `k` digits, then `w` whitespace characters,
      then the unit letter: one way for `/(\d+)\s*<unit>/` to match at `p`. */
  predicate Shape(s: string, p: nat, k: nat, w: nat, u: char)
  {
    && 1 <= k && p + k + w < |s|
    && (forall j :: p <= j < p + k ==> IsDigit(s[j]))
    && (forall j :: p + k <= j < p + k + w ==> IsSpace(s[j]))
    && s[p + k + w] == u
  }

  /** The match at `p` as the engine finds it: all the digits, all the
      whitespace, then the unit letter. */
  predicate MatchesAt(s: string, p: nat, u: char)
    requires p <= |s|
  {
    var k := DigitRun(s, p);
    var w := SpaceRun(s, p + k);
    k > 0 && p + k + w < |s| && s[p + k + w] == u
  }

  /** The greedy reading is the only one: a unit letter is neither a digit
      nor whitespace, so any way of matching at `p` takes the whole digit
      run and the whole whitespace run. Hence the number captured at a
      match is the full run of digits there. */
  lemma MatchesAtIff(s: string, p: nat, u: char)
    requires p <= |s| && IsUnit(u)
    ensures MatchesAt(s, p, u) <==> exists k, w :: Shape(s, p, k, w, u)
    ensures forall k, w :: Shape(s, p, k, w, u) ==> k == DigitRun(s, p) && w == SpaceRun(s, p + k)
  {
    forall k, w | Shape(s, p, k, w, u)
      ensures k == DigitRun(s, p) && w == SpaceRun(s, p + k)
    {
      ShapeIsGreedy(s, p, k, w, u);
    }
    if MatchesAt(s, p, u) {
      DigitRunSpec(s, p);
      SpaceRunSpec(s, p + DigitRun(s, p));
      assert Shape(s, p, DigitRun(s, p), SpaceRun(s, p + DigitRun(s, p)), u);
    }
  }

  lemma ShapeIsGreedy(s: string, p: nat, k: nat, w: nat, u: char)
    requires IsUnit(u) && Shape(s, p, k, w, u)
    ensures k == DigitRun(s, p) && w == SpaceRun(s, p + k)
  {
    RunFrom(s, p, k);
    SpaceRunFrom(s, p + k, w);
  }

  /** A run of `k` digits followed by a non-digit is the digit run. */
  lemma {:induction false} RunFrom(s: string, i: nat, k: nat)
    requires i + k < |s|
    requires forall j :: i <= j < i + k ==> IsDigit(s[j])
    requires !IsDigit(s[i + k])
    ensures DigitRun(s, i) == k
    decreases k
  {
    if k > 0 {
      RunFrom(s, i + 1, k - 1);
    }
  }

  lemma {:induction false} SpaceRunFrom(s: string, i: nat, w: nat)
    requires i + w < |s|
    requires forall j :: i <= j < i + w ==> IsSpace(s[j])
    requires !IsSpace(s[i + w])
    ensures SpaceRun(s, i) == w
    decreases w
  {
    if w > 0 {
      SpaceRunFrom(s, i + 1, w - 1);
    }
  }

  /** `timeStr.match(...)`: the leftmost position at or after `from` where
      the expression matches, if any. */
  function FirstMatch(s: string, u: char, from: nat): (r: Option<nat>)
    requires from <= |s|
    ensures r.Some? ==> from <= r.value < |s| && MatchesAt(s, r.value, u)
    decreases |s| - from
  {
    if from == |s| then None
    else if MatchesAt(s, from, u) then Some(from)
    else FirstMatch(s, u, from + 1)
  }

  /** The match found is the leftmost one: nothing matches before it, and
      there is no match only when nothing matches anywhere. */
  lemma {:induction false} FirstMatchLeftmost(s: string, u: char, from: nat)
    requires from <= |s|
    ensures var r := FirstMatch(s, u, from);
      && (r.Some? ==> forall p :: from <= p < r.value ==> !MatchesAt(s, p, u))
      && (r.None? ==> forall p :: from <= p <= |s| ==> !MatchesAt(s, p, u))
    decreases |s| - from
  {
    if from < |s| && !MatchesAt(s, from, u) {
      FirstMatchLeftmost(s, u, from + 1);
    }
  }

  /** `parseInt` of a string of decimal digits. */
  function DigitsValue(ds: string): nat
    requires forall i :: 0 <= i < |ds| ==> IsDigit(ds[i])
  {
    if ds == [] then 0
    else 10 * DigitsValue(ds[..|ds| - 1]) + DigitValue(ds[|ds| - 1])
  }

  function DigitValue(c: char): nat
    requires IsDigit(c)
  {
    c as int - '0' as int
  }

  /** Reading back a number written in decimal gives the number. */
  lemma {:induction false} DigitsValueOfNatToString(n: nat)
    ensures DigitsValue(NatToString(n)) == n
  {
    if n >= 10 {
      var t := NatToString(n);
      assert t[..|t| - 1] == NatToString(n / 10);
      DigitsValueOfNatToString(n / 10);
    }
  }

  /** The number the first match for `u` captures, or 0 without a match
      (the `if (m)` guard). */
  function UnitCount(s: string, u: char): nat
  {
    match FirstMatch(s, u, 0)
    case None => 0
    case Some(p) =>
      DigitRunSpec(s, p);
      DigitsValue(s[p..p + DigitRun(s, p)])
  }

  /** Seconds per unit: a year is 365 days. */
  function Weight(u: char): nat
  {
    match u
    case 'y' => 60 * 60 * 24 * 365
    case 'd' => 60 * 60 * 24
    case 'h' => 60 * 60
    case 'm' => 60
    case _ => 1
  }

  /** `parseTime(timeStr)`, in milliseconds. */
  function ParseTime(s: string): (r: nat)
    ensures r % 1000 == 0
  {
    var secs := 31536000 * UnitCount(s, 'y') + 86400 * UnitCount(s, 'd') + 3600 * UnitCount(s, 'h') +
                60 * UnitCount(s, 'm') + UnitCount(s, 's');
    secs * 1000
  }

  /** Without any unit letter in it, a string is a duration of 0. */
  lemma NoUnitIsZero(s: string)
    requires forall i :: 0 <= i < |s| ==> !IsUnit(s[i])
    ensures ParseTime(s) == 0
  {
    NoUnitNoMatch(s, 'y', 0);
    NoUnitNoMatch(s, 'd', 0);
    NoUnitNoMatch(s, 'h', 0);
    NoUnitNoMatch(s, 'm', 0);
    NoUnitNoMatch(s, 's', 0);
  }

  lemma {:induction false} NoUnitNoMatch(s: string, u: char, from: nat)
    requires from <= |s| && IsUnit(u)
    requires forall i :: 0 <= i < |s| ==> s[i] != u
    ensures FirstMatch(s, u, from) == None
    decreases |s| - from
  {
    if from < |s| {
      NoUnitNoMatch(s, u, from + 1);
    }
  }

  /** `ns.args.join(' ')`. */
  function Join(args: seq<string>): string
  {
    if args == [] then ""
    else if |args| == 1 then args[0]
    else Join(args[..|args| - 1]) + " " + args[|args| - 1]
  }

  /** skip.js: the amount to skip, from the script's arguments. */
  function SkipAmount(args: seq<string>): (ms: nat)
    ensures ms % 1000 == 0
  {
    ParseTime(Join(args))
  }

  /** The count for `u` is the number at a match with none before it. */
  lemma UnitCountAt(s: string, u: char, p: nat)
    requires p < |s| && MatchesAt(s, p, u)
    requires forall q :: 0 <= q < p ==> !MatchesAt(s, q, u)
    ensures FirstMatch(s, u, 0) == Some(p)
  {
    FirstMatchLeftmost(s, u, 0);
  }

  /** The digits `ds` written at `p` and followed by `u`, with no match
      for `u` before `p`: the count for `u` is the value of `ds`. */
  lemma CountAt(s: string, u: char, p: nat, ds: string)
    requires IsUnit(u) && 0 < |ds| && p + |ds| < |s|
    requires s[p..p + |ds|] == ds && s[p + |ds|] == u
    requires forall i :: 0 <= i < |ds| ==> IsDigit(ds[i])
    requires forall q :: 0 <= q < p ==> !MatchesAt(s, q, u)
    ensures UnitCount(s, u) == DigitsValue(ds)
  {
    assert forall j :: p <= j < p + |ds| ==> s[j] == ds[j - p];
    RunFrom(s, p, |ds|);
    assert SpaceRun(s, p + |ds|) == 0;
    UnitCountAt(s, u, p);
  }

  /** A number followed by a unit letter at the start: that letter counts
      the number, whatever follows. */
  lemma LeadingTerm(a: nat, u: char, rest: string)
    requires IsUnit(u)
    ensures UnitCount(NatToString(a) + [u] + rest, u) == a
  {
    var A := NatToString(a);
    var s := A + [u] + rest;
    assert s[0..|A|] == A;
    CountAt(s, u, 0, A);
    DigitsValueOfNatToString(a);
  }

  /** A digit run ended by a unit letter and a space holds no match for
      another letter: `m` digits, then `u1`, then a space. */
  lemma NoMatchInFirstTerm(s: string, m: nat, u1: char, u2: char)
    requires m + 2 <= |s|
    requires forall i :: 0 <= i < m ==> IsDigit(s[i])
    requires s[m] == u1 && s[m + 1] == ' ' && IsUnit(u1) && u1 != u2
    ensures forall q :: 0 <= q < m + 2 ==> !MatchesAt(s, q, u2)
  {
    assert SpaceRun(s, m) == 0;
    forall q | 0 <= q < m + 2
      ensures !MatchesAt(s, q, u2)
    {
      if q < m {
        RunFrom(s, q, m - q);
      }
    }
  }

  /** In "1h 30m" the minutes are the second number: before it, no digit
      run is followed by the second letter. */
  lemma SecondTerm(a: nat, u1: char, b: nat, u2: char)
    requires IsUnit(u1) && IsUnit(u2) && u1 != u2
    ensures UnitCount(NatToString(a) + [u1, ' '] + NatToString(b) + [u2], u2) == b
  {
    var A := NatToString(a);
    var B := NatToString(b);
    var s := A + [u1, ' '] + B + [u2];
    var j := |A| + 2;
    NoMatchInFirstTerm(s, |A|, u1, u2);
    assert s[j..j + |B|] == B;
    CountAt(s, u2, j, B);
    DigitsValueOfNatToString(b);
  }

  /** A letter that does not occur counts nothing. */
  lemma AbsentUnit(s: string, v: char)
    requires IsUnit(v) && v !in s
    ensures UnitCount(s, v) == 0
  {
    NoUnitNoMatch(s, v, 0);
  }

  /** A number's decimal digits hold no unit letter. */
  lemma NoUnitInNumber(n: nat, v: char)
    requires IsUnit(v)
    ensures v !in NatToString(n)
  {
    var t := NatToString(n);
    assert forall i :: 0 <= i < |t| ==> IsDigit(t[i]);
  }

  /** In a number followed by one unit letter, that letter counts the
      number and no other letter counts anything. */
  lemma UnitCountOfNumber(n: nat, u: char, v: char)
    requires IsUnit(u) && IsUnit(v)
    ensures UnitCount(NatToString(n) + [u], v) == if v == u then n else 0
  {
    var s := NatToString(n) + [u];
    if v == u {
      assert s == NatToString(n) + [u] + [];
      LeadingTerm(n, u, []);
    } else {
      NoUnitInNumber(n, v);
      AbsentUnit(s, v);
    }
  }

  /** A number followed by one unit letter is that many units. */
  lemma SingleUnit(n: nat, u: char)
    requires IsUnit(u)
    ensures ParseTime(NatToString(n) + [u]) == 1000 * Weight(u) * n
  {
    UnitCountOfNumber(n, u, 'y');
    UnitCountOfNumber(n, u, 'd');
    UnitCountOfNumber(n, u, 'h');
    UnitCountOfNumber(n, u, 'm');
    UnitCountOfNumber(n, u, 's');
    var s := NatToString(n) + [u];
    ParseTimeOfCounts(s, if u == 'y' then n else 0, if u == 'd' then n else 0, if u == 'h' then n else 0,
      if u == 'm' then n else 0, if u == 's' then n else 0);
    WeightedOne(n, u);
  }

  lemma ParseTimeOfCounts(s: string, y: nat, d: nat, h: nat, m: nat, sec: nat)
    requires UnitCount(s, 'y') == y && UnitCount(s, 'd') == d && UnitCount(s, 'h') == h
    requires UnitCount(s, 'm') == m && UnitCount(s, 's') == sec
    ensures ParseTime(s) == 1000 * (31536000 * y + 86400 * d + 3600 * h + 60 * m + sec)
  {
  }

  lemma WeightedOne(n: nat, u: char)
    requires IsUnit(u)
    ensures 1000 * (31536000 * (if u == 'y' then n else 0) + 86400 * (if u == 'd' then n else 0) +
      3600 * (if u == 'h' then n else 0) + 60 * (if u == 'm' then n else 0) + (if u == 's' then n else 0))
      == 1000 * Weight(u) * n
  {
  }

  /** Two arguments are joined with one space. */
  lemma JoinTwo(x: string, y: string)
    ensures Join([x, y]) == x + " " + y
  {
    assert [x, y][..1] == [x];
  }

  /** In two terms, the first letter counts the first number. */
  lemma FirstOfTwo(a: nat, u1: char, b: nat, u2: char)
    requires IsUnit(u1)
    ensures UnitCount(NatToString(a) + [u1, ' '] + NatToString(b) + [u2], u1) == a
  {
    var A := NatToString(a);
    var s := A + [u1, ' '] + NatToString(b) + [u2];
    assert s[0..|A|] == A;
    CountAt(s, u1, 0, A);
    DigitsValueOfNatToString(a);
  }

  /** In two terms, a letter that is neither of theirs counts nothing. */
  lemma AbsentFromTwo(a: nat, u1: char, b: nat, u2: char, v: char)
    requires IsUnit(v) && v != u1 && v != u2
    ensures UnitCount(NatToString(a) + [u1, ' '] + NatToString(b) + [u2], v) == 0
  {
    NoUnitInNumber(a, v);
    NoUnitInNumber(b, v);
    AbsentUnit(NatToString(a) + [u1, ' '] + NatToString(b) + [u2], v);
  }

  /** Two terms with distinct letters, such as "1h 30m": each letter
      counts its number, and the other letters count nothing. */
  lemma TwoTermCounts(a: nat, u1: char, b: nat, u2: char, v: char)
    requires IsUnit(u1) && IsUnit(u2) && IsUnit(v) && u1 != u2
    ensures UnitCount(NatToString(a) + [u1, ' '] + NatToString(b) + [u2], v) ==
      if v == u1 then a else if v == u2 then b else 0
  {
    if v == u1 {
      FirstOfTwo(a, u1, b, u2);
    } else if v == u2 {
      SecondTerm(a, u1, b, u2);
    } else {
      AbsentFromTwo(a, u1, b, u2, v);
    }
  }

  /** `run skip.js 1h 30m` skips an hour and a half: the arguments are
      joined with a space before parsing. */
  lemma SkipHourAndHalf()
    ensures SkipAmount(["1h", "30m"]) == 5400000
  {
    JoinTwo("1h", "30m");
    assert NatToString(1) == "1" && NatToString(30) == "30";
    assert Join(["1h", "30m"]) == NatToString(1) + ['h', ' '] + NatToString(30) + ['m'];
    TwoTermCounts(1, 'h', 30, 'm', 'y');
    TwoTermCounts(1, 'h', 30, 'm', 'd');
    TwoTermCounts(1, 'h', 30, 'm', 'h');
    TwoTermCounts(1, 'h', 30, 'm', 'm');
    TwoTermCounts(1, 'h', 30, 'm', 's');
  }

  /** Each letter counts the same in "a u b u" as in "a u". */
  lemma RepeatedTermCount(a: nat, u: char, b: nat, v: char)
    requires IsUnit(u) && IsUnit(v)
    ensures UnitCount(NatToString(a) + [u, ' '] + NatToString(b) + [u], v) == UnitCount(NatToString(a) + [u], v)
  {
    UnitCountOfNumber(a, u, v);
    if v == u {
      FirstOfTwo(a, u, b, u);
    } else {
      AbsentFromTwo(a, u, b, u, v);
    }
  }

  /** A letter's second occurrence adds nothing: only the number before
      its first occurrence counts. */
  lemma RepeatedTermIgnored(a: nat, u: char, b: nat)
    requires IsUnit(u)
    ensures ParseTime(NatToString(a) + [u, ' '] + NatToString(b) + [u]) == ParseTime(NatToString(a) + [u])
  {
    RepeatedTermCount(a, u, b, 'y');
    RepeatedTermCount(a, u, b, 'd');
    RepeatedTermCount(a, u, b, 'h');
    RepeatedTermCount(a, u, b, 'm');
    RepeatedTermCount(a, u, b, 's');
  }

  /** "5s 7s" is five seconds, not twelve. */
  lemma RepeatedUnit()
    ensures ParseTime("5s 7s") == 5000
  {
    assert NatToString(5) == "5" && NatToString(7) == "7";
    assert "5s 7s" == NatToString(5) + ['s', ' '] + NatToString(7) + ['s'];
    assert "5s" == NatToString(5) + ['s'];
    RepeatedTermIgnored(5, 's', 7);
    SingleUnit(5, 's');
  }
}
