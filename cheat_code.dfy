/** The "Enter the Code!" minigame (`cheatCode` in infiltrator-service.js):
    while the game is shown, the solver polls the arrow on screen and types
    the matching key whenever the arrow differs from the last one it
    answered. An arrow it does not know ends the routine.

    Each poll is an input: `Some(text)` for the text shown under the title,
    `None` when that element is missing (`undefined`). The polls run out
    when the game is no longer shown. */
module CheatCode {
  import opened Common

  /** The arrow table: up, right, down, left to w, d, s, a. */
  const ArrowKeys: map<string, char> :=
    map["\U{2191}" := 'w', "\U{2192}" := 'd', "\U{2193}" := 's', "\U{2190}" := 'a']

  /** An arrow the table knows (`arrow in arrowsMap`). */
  predicate Known(arrow: Option<string>)
  {
    arrow.Some? && arrow.value in ArrowKeys
  }

  /** The keys typed for the remaining polls, given the last arrow answered. */
  function CheatKeys(polls: seq<Option<string>>, lastArrow: Option<string>): string
  {
    if polls == [] then []
    else if polls[0] == lastArrow then CheatKeys(polls[1..], lastArrow)
    else if Known(polls[0]) then [ArrowKeys[polls[0].value]] + CheatKeys(polls[1..], polls[0])
    else []
  }

  /** The polling loop. */
  method Solve(polls: seq<Option<string>>) returns (sent: string)
    ensures sent == CheatKeys(polls, None)
  {
    sent := [];
    var lastArrow: Option<string> := None;
    var i := 0;
    while i < |polls|
      invariant 0 <= i <= |polls|
      invariant sent + CheatKeys(polls[i..], lastArrow) == CheatKeys(polls, None)
    {
      var arrow := polls[i];
      assert polls[i..][1..] == polls[i + 1..];
      if arrow != lastArrow {
        if Known(arrow) {
          sent := sent + [ArrowKeys[arrow.value]];
          lastArrow := arrow;
        } else {
          assert sent == CheatKeys(polls, None);
          return;
        }
      }
      i := i + 1;
    }
  }

  // ---------------------------------------------------------------------
  // Properties

  /** Only the four movement keys are ever typed, at most one per poll. */
  lemma {:induction false} CheatKeysValid(polls: seq<Option<string>>, lastArrow: Option<string>)
    ensures |CheatKeys(polls, lastArrow)| <= |polls|
    ensures forall j :: 0 <= j < |CheatKeys(polls, lastArrow)| ==> CheatKeys(polls, lastArrow)[j] in "wdsa"
  {
    if polls != [] {
      CheatKeysValid(polls[1..], lastArrow);
      CheatKeysValid(polls[1..], polls[0]);
    }
  }

  /** Seeing the same arrow on two polls in a row types nothing more. */
  lemma {:induction false} CheatKeysStutter(polls: seq<Option<string>>, lastArrow: Option<string>, j: nat)
    requires j < |polls|
    ensures CheatKeys(polls[..j + 1] + polls[j..], lastArrow) == CheatKeys(polls, lastArrow)
  {
    var longer := polls[..j + 1] + polls[j..];
    if j == 0 {
      assert longer[1..] == polls;
      assert longer[0] == polls[0];
      if polls[0] != lastArrow && Known(polls[0]) {
        assert polls == [polls[0]] + polls[1..];
      }
    } else {
      assert longer[0] == polls[0];
      assert longer[1..] == polls[1..][..j] + polls[1..][j - 1..];
      CheatKeysStutter(polls[1..], lastArrow, j - 1);
      CheatKeysStutter(polls[1..], polls[0], j - 1);
    }
  }

  /** An arrow outside the table ends the routine: nothing after it is
      typed, provided the routine started from no arrow or a known one. */
  lemma {:induction false} CheatKeysStopsAtUnknown(polls: seq<Option<string>>, lastArrow: Option<string>, j: nat)
    requires j < |polls| && polls[j].Some? && !Known(polls[j])
    requires lastArrow.None? || Known(lastArrow)
    ensures CheatKeys(polls, lastArrow) == CheatKeys(polls[..j], lastArrow)
  {
    if j == 0 {
      assert polls[0] != lastArrow;
    } else {
      assert polls[..j][1..] == polls[1..][..j - 1];
      CheatKeysStopsAtUnknown(polls[1..], lastArrow, j - 1);
      if polls[0] != lastArrow && Known(polls[0]) {
        CheatKeysStopsAtUnknown(polls[1..], polls[0], j - 1);
      }
    }
  }

  /** Showing a sequence of distinct known arrows, each for one poll, types
      their keys in order. */
  lemma {:induction false} CheatKeysDistinct(polls: seq<Option<string>>, lastArrow: Option<string>)
    requires forall j :: 0 <= j < |polls| ==> Known(polls[j])
    requires forall j :: 0 < j < |polls| ==> polls[j] != polls[j - 1]
    requires polls != [] ==> polls[0] != lastArrow
    ensures |CheatKeys(polls, lastArrow)| == |polls|
    ensures forall j :: 0 <= j < |polls| && Known(polls[j]) ==> CheatKeys(polls, lastArrow)[j] == ArrowKeys[polls[j].value]
  {
    if polls != [] {
      CheatKeysDistinct(polls[1..], polls[0]);
    }
  }
}
