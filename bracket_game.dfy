/** The "Close the brackets" minigame (`brackets` in
    infiltrator-service.js): the reply is the shown text reversed, with one
    '|' dropped, and every opening bracket replaced by its closer. */
module BracketGame {
  import opened Common

  /** The closing bracket for an opening one; any other character as is. */
  function Closer(c: char): char
  {
    match c
    case '<' => '>'
    case '(' => ')'
    case '[' => ']'
    case '{' => '}'
    case _ => c
  }

  predicate IsOpener(c: char) { c == '<' || c == '(' || c == '[' || c == '{' }

  /** `s.split('').reverse().join('')`. */
  function Reverse(s: string): (r: string)
    ensures |r| == |s|
    ensures forall i :: 0 <= i < |s| ==> r[i] == s[|s| - 1 - i]
  {
    seq(|s|, i requires 0 <= i < |s| => s[|s| - 1 - i])
  }

  /** `s.replace(c, '')` with a one-character pattern: only the first
      occurrence is removed. */
  function RemoveFirst(s: string, c: char): string
  {
    var k := IndexOf(s, c);
    if k < 0 then s else s[..k] + s[k + 1..]
  }

  /** `s.replaceAll(a, b)` with one-character pattern and replacement. */
  function ReplaceAll(s: string, a: char, b: char): string
  {
    if s == [] then [] else [if s[0] == a then b else s[0]] + ReplaceAll(s[1..], a, b)
  }

  /** The reply the solver types for the shown bracket text. */
  function CloseText(bracketText: string): string
  {
    var t := RemoveFirst(Reverse(bracketText), '|');
    ReplaceAll(ReplaceAll(ReplaceAll(ReplaceAll(t, '<', '>'), '(', ')'), '[', ']'), '{', '}')
  }

  // ---------------------------------------------------------------------
  // Properties

  lemma {:induction false} ReplaceAllAt(s: string, a: char, b: char)
    ensures |ReplaceAll(s, a, b)| == |s|
    ensures forall i :: 0 <= i < |s| ==> ReplaceAll(s, a, b)[i] == if s[i] == a then b else s[i]
  {
    if s != [] {
      ReplaceAllAt(s[1..], a, b);
    }
  }

  /** The four `replaceAll` calls together replace each character by its
      closer, independently of position. */
  lemma CloseTextIsMap(bracketText: string)
    ensures var t := RemoveFirst(Reverse(bracketText), '|');
      |CloseText(bracketText)| == |t| &&
      forall i :: 0 <= i < |t| ==> CloseText(bracketText)[i] == Closer(t[i])
  {
    var t := RemoveFirst(Reverse(bracketText), '|');
    var t1 := ReplaceAll(t, '<', '>');
    var t2 := ReplaceAll(t1, '(', ')');
    var t3 := ReplaceAll(t2, '[', ']');
    ReplaceAllAt(t, '<', '>');
    ReplaceAllAt(t1, '(', ')');
    ReplaceAllAt(t2, '[', ']');
    ReplaceAllAt(t3, '{', '}');
  }

  /** The reply is one character shorter than the text exactly when the text
      holds a '|'. */
  lemma CloseTextLength(bracketText: string)
    ensures |CloseText(bracketText)| == |bracketText| - (if '|' in bracketText then 1 else 0)
  {
    CloseTextIsMap(bracketText);
    var r := Reverse(bracketText);
    if '|' in bracketText {
      var k :| 0 <= k < |bracketText| && bracketText[k] == '|';
      assert r[|bracketText| - 1 - k] == '|';
    } else {
      assert '|' !in r;
    }
  }

  /** Position by position: with no '|' the reply is the text reversed with
      openers closed; otherwise the LAST '|' of the text (the first of its
      reversal) is the one dropped. */
  lemma CloseTextAt(bracketText: string, j: nat)
    requires j < |bracketText| - (if '|' in bracketText then 1 else 0)
    ensures |CloseText(bracketText)| == |bracketText| - (if '|' in bracketText then 1 else 0)
    ensures var n := |bracketText|;
      var p := LastIndexOf(bracketText, '|');
      CloseText(bracketText)[j] ==
        if p < 0 || j < n - 1 - p then Closer(bracketText[n - 1 - j])
        else Closer(bracketText[n - 2 - j])
  {
    CloseTextLength(bracketText);
    CloseTextIsMap(bracketText);
    LastBarIsFirstOfReverse(bracketText);
  }

  /** The last '|' of a text is the first of its reversal. */
  lemma LastBarIsFirstOfReverse(bracketText: string)
    ensures var k := IndexOf(Reverse(bracketText), '|');
      LastIndexOf(bracketText, '|') == if k < 0 then -1 else |bracketText| - 1 - k
  {
    var n := |bracketText|;
    var r := Reverse(bracketText);
    var k := IndexOf(r, '|');
    var p := LastIndexOf(bracketText, '|');
    if k >= 0 {
      assert r[k] == '|';
      assert bracketText[n - 1 - k] == '|';
      forall q | n - 1 - k < q < n
        ensures bracketText[q] != '|'
      {
        assert r[n - 1 - q] == bracketText[q];
        assert r[n - 1 - q] in r[..k];
      }
      assert !(p < n - 1 - k);
      assert !(p > n - 1 - k);
    } else {
      forall q | 0 <= q < n
        ensures bracketText[q] != '|'
      {
        assert r[n - 1 - q] == bracketText[q];
      }
      assert !(p >= 0);
    }
  }

  /** No opening bracket is left in the reply. */
  lemma CloseTextNoOpeners(bracketText: string)
    ensures forall j :: 0 <= j < |CloseText(bracketText)| ==> !IsOpener(CloseText(bracketText)[j])
  {
    CloseTextIsMap(bracketText);
  }

  /** Index of the last occurrence of `c` in `s`, or -1. */
  function LastIndexOf(s: string, c: char): (r: int)
    ensures -1 <= r < |s|
    ensures r >= 0 ==> s[r] == c
    ensures forall q :: r < q < |s| ==> s[q] != c
  {
    LastBefore(s, c, |s|)
  }

  /** The last index below `i` that holds `c`, or -1. */
  function LastBefore(s: string, c: char, i: nat): (r: int)
    requires i <= |s|
    ensures -1 <= r < i
    ensures r >= 0 ==> s[r] == c
    ensures forall q :: r < q < i ==> s[q] != c
  {
    if i == 0 then -1
    else if s[i - 1] == c then i - 1
    else LastBefore(s, c, i - 1)
  }
}
