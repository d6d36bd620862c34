/** From match offsets to line numbers. */
module LineNumbers {
  import opened Collections

  function Newlines(text: string): nat {
    if text == "" then 0 else Newlines(text[..|text| - 1]) + if text[|text| - 1] == '\n' then 1 else 0
  }

  function LineStarts(text: string): (starts: seq<nat>)
    ensures |starts| == 1 + Newlines(text)
  {
    if text == "" then [0]
    else LineStarts(text[..|text| - 1]) + if text[|text| - 1] == '\n' then [|text|] else []
  }

  lemma {:induction false} StartsAscend(text: string)
    ensures Ascending(LineStarts(text))
    ensures forall i | 0 <= i < |LineStarts(text)| :: LineStarts(text)[i] <= |text|
  {
    if text != "" {
      StartsAscend(text[..|text| - 1]);
    }
  }

  lemma {:induction false} StartsOfPrefix(text: string, offset: nat)
    requires offset <= |text|
    ensures LineStarts(text[..offset]) <= LineStarts(text)
    ensures forall i | 1 + Newlines(text[..offset]) <= i < |LineStarts(text)| :: LineStarts(text)[i] > offset
    decreases |text|
  {
    if offset == |text| {
      assert text[..offset] == text;
    } else {
      var init := text[..|text| - 1];
      assert init[..offset] == text[..offset];
      StartsOfPrefix(init, offset);
    }
  }

  method ComputeLineStarts(text: string) returns (lineStarts: seq<nat>)
    ensures lineStarts == LineStarts(text)
  {
    lineStarts := [0];
    for index := 0 to |text|
      invariant lineStarts == LineStarts(text[..index])
    {
      assert text[..index + 1][..index] == text[..index];
      if text[index] == '\n' {
        lineStarts := lineStarts + [index + 1];
      }
    }
    assert text[..|text|] == text;
  }

  /** The number of starts at or before the offset, by binary search. */
  method LineNumberFromOffset(offset: nat, lineStarts: seq<nat>) returns (line: nat)
    requires |lineStarts| > 0 && Ascending(lineStarts)
    ensures line <= |lineStarts|
    ensures forall i | 0 <= i < line :: lineStarts[i] <= offset
    ensures forall i | line <= i < |lineStarts| :: lineStarts[i] > offset
  {
    var low, high := 0, |lineStarts| - 1;
    while low <= high
      invariant 0 <= low <= high + 1 <= |lineStarts|
      invariant forall i | 0 <= i < low :: lineStarts[i] <= offset
      invariant forall i | high < i < |lineStarts| :: lineStarts[i] > offset
    {
      var mid := low + (high - low) / 2;
      if lineStarts[mid] <= offset {
        low := mid + 1;
      } else {
        high := mid - 1;
      }
    }
    line := high + 1;
  }

  /** The search answers one more than the newlines before the offset. */
  lemma SplitIsNewlineCount(text: string, offset: nat, line: nat)
    requires offset <= |text| && line <= |LineStarts(text)|
    requires forall i | 0 <= i < line :: LineStarts(text)[i] <= offset
    requires forall i | line <= i < |LineStarts(text)| :: LineStarts(text)[i] > offset
    ensures line == 1 + Newlines(text[..offset])
  {
    var count := 1 + Newlines(text[..offset]);
    StartsOfPrefix(text, offset);
    StartsAscend(text[..offset]);
    assert LineStarts(text)[count - 1] == LineStarts(text[..offset])[count - 1] <= offset;
    if line >= 1 {
      assert LineStarts(text)[line - 1] <= offset;
    }
  }

  predicate IsNewline(c: char) { c == '\n' }

  lemma {:induction false} NewlinesCounted(text: string)
    ensures Newlines(text) == |Places(text, IsNewline)|
  {
    if text == "" {
      NoPlaces(IsNewline);
    } else {
      var init, last := text[..|text| - 1], text[|text| - 1];
      assert text == init + [last];
      NewlinesCounted(init);
      PlacesSnoc(init, last, IsNewline);
    }
  }

  method LineOfMatch(text: string, offset: nat) returns (line: nat)
    requires offset <= |text|
    ensures line == 1 + Newlines(text[..offset])
    ensures line == 1 + |Places(text[..offset], IsNewline)|
  {
    var lineStarts := ComputeLineStarts(text);
    StartsAscend(text);
    line := LineNumberFromOffset(offset, lineStarts);
    SplitIsNewlineCount(text, offset, line);
    NewlinesCounted(text[..offset]);
  }
}
