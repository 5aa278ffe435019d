/**
 Tool results go into the context window, so long ones are clipped to a budget that all text blocks share.
 */
module Truncation {
  import opened Wrappers

  datatype Block = TextBlock(text: string) | OtherBlock(payload: string)

  function Decimal(n: nat): (s: string)
    ensures s != "" && forall i :: 0 <= i < |s| ==> '0' <= s[i] <= '9'
  {
    var digit := [('0' as int + n % 10) as char];
    if n < 10 then digit else Decimal(n / 10) + digit
  }

  function ValueOf(s: string): int {
    if s == "" then 0 else ValueOf(s[..|s| - 1]) * 10 + (s[|s| - 1] as int - '0' as int)
  }

  /** The number a marker prints is the number it was given. */
  lemma {:induction false} DecimalReads(n: nat)
    ensures ValueOf(Decimal(n)) == n
  {
    if n < 10 {
      assert Decimal(n)[..0] == "";
    } else {
      DecimalReads(n / 10);
      assert Decimal(n)[..|Decimal(n)| - 1] == Decimal(n / 10);
    }
  }

  const MARKER_CLOSING :=
    " more characters. Narrow the query — filter by time range, label, or line count — rather than "
    + "re-running this call unchanged.]"

  function Marker(dropped: nat): string {
    "\n\n[truncated: " + Decimal(dropped) + MARKER_CLOSING
  }

  /** All the text of the blocks, in order. */
  function AllText(blocks: seq<Block>): string {
    if blocks == [] then ""
    else AllText(blocks[..|blocks| - 1]) + if blocks[|blocks| - 1].TextBlock? then blocks[|blocks| - 1].text else ""
  }

  predicate HasText(blocks: seq<Block>) {
    blocks != [] && (HasText(blocks[..|blocks| - 1]) || blocks[|blocks| - 1].TextBlock?)
  }

  /** `text[:n]`: a negative bound counts from the end. */
  function Head(text: string, n: int): (head: string)
    ensures |head| == if n >= 0 then Min(|text|, n) else Max0(|text| + n)
    ensures head <= text
  {
    text[..if n >= 0 then Min(|text|, n) else Max0(|text| + n)]
  }

  function Max0(n: int): nat {
    if n >= 0 then n else 0
  }

  /** What is left of the limit for block `i`: what the text before it did not use up; of a negative one, nothing. */
  function Budget(blocks: seq<Block>, limit: int, i: nat): int
    requires i <= |blocks|
  {
    if limit < 0 then if HasText(blocks[..i]) then 0 else limit
    else limit - Min(limit, |AllText(blocks[..i])|)
  }

  predicate Fits(blocks: seq<Block>, limit: int, i: nat)
    requires i < |blocks|
  {
    blocks[i].TextBlock? ==> |blocks[i].text| <= Budget(blocks, limit, i)
  }

  /** The part of block `i`'s text that is kept. */
  function Kept(blocks: seq<Block>, limit: int, i: nat): string
    requires i < |blocks|
  {
    if blocks[i].TextBlock? then Head(blocks[i].text, Budget(blocks, limit, i)) else ""
  }

  /** The number of characters block `i` is reported to have lost. */
  function Dropped(blocks: seq<Block>, limit: int, i: nat): nat
    requires i < |blocks|
  {
    if Fits(blocks, limit, i) then 0 else |blocks[i].text| - Budget(blocks, limit, i)
  }

  /** A clipped block says how much it lost; a block that fits is as it was. */
  function Clipped(blocks: seq<Block>, limit: int, i: nat): Block
    requires i < |blocks|
  {
    if Fits(blocks, limit, i) then blocks[i]
    else TextBlock(Kept(blocks, limit, i) + Marker(Dropped(blocks, limit, i)))
  }

  lemma BudgetStep(blocks: seq<Block>, limit: int, i: nat)
    requires i < |blocks|
    ensures Budget(blocks, limit, i + 1) ==
      if !blocks[i].TextBlock? then Budget(blocks, limit, i)
      else if Fits(blocks, limit, i) then Budget(blocks, limit, i) - |blocks[i].text|
      else 0
  {
    assert blocks[..i + 1][..i] == blocks[..i];
  }

  function Joined(texts: seq<string>): string {
    if texts == [] then "" else Joined(texts[..|texts| - 1]) + texts[|texts| - 1]
  }

  /**
   What has become of the blocks: `kept` is what is left of the text of each. A block that kept all its text is as it
   was; any other text block is what it kept and a notice of how much more there was.
   */
  ghost predicate Shows(blocks: seq<Block>, out: seq<Block>, kept: seq<string>) {
    && |out| == |blocks| == |kept|
    && forall i :: 0 <= i < |blocks| ==>
         match blocks[i]
         case OtherBlock(_) => out[i] == blocks[i] && kept[i] == ""
         case TextBlock(text) =>
           if kept[i] == text then out[i] == blocks[i]
           else
             && kept[i] <= text
             && out[i] == TextBlock(kept[i] + Marker(|text| - |kept[i]|))
  }

  /** The output shows the beginning of all the text, as much as the limit allows. */
  ghost predicate ShowsTheBeginning(blocks: seq<Block>, out: seq<Block>, limit: nat) {
    exists kept :: Shows(blocks, out, kept) && Joined(kept) == AllText(blocks)[..Min(|AllText(blocks)|, limit)]
  }

  /** Under a negative limit the first text block loses its end and reports too much; the later ones lose everything. */
  ghost predicate ShowsTooLittle(blocks: seq<Block>, out: seq<Block>, limit: int)
    requires limit < 0
  {
    && |out| == |blocks|
    && forall i :: 0 <= i < |blocks| ==>
         match blocks[i]
         case OtherBlock(_) => out[i] == blocks[i]
         case TextBlock(text) =>
           if forall j :: 0 <= j < i ==> blocks[j].OtherBlock?
           then out[i] == TextBlock(text[..Max0(|text| + limit)] + Marker(|text| - limit))
           else out[i] == if text == "" then blocks[i] else TextBlock("" + Marker(|text|))
  }

  method TruncateBlocks(blocks: seq<Block>, limit: int) returns (out: seq<Block>)
    ensures |out| == |blocks|
    ensures forall i :: 0 <= i < |blocks| ==> out[i] == Clipped(blocks, limit, i)
    ensures limit >= 0 ==> ShowsTheBeginning(blocks, out, limit)
    ensures limit < 0 ==> ShowsTooLittle(blocks, out, limit)
  {
    out := ClipBlocks(blocks, limit);
    if limit >= 0 {
      ClippedShows(blocks, out, limit);
    } else {
      NegativeShows(blocks, out, limit);
    }
  }

  lemma ClosingText()
    ensures MARKER_CLOSING
      == " more characters. Narrow the query — filter by time range, label, or line count — rather than "
         + "re-running this call unchanged.]"
  {
  }

  /** A marker says how many characters there were, in decimal. */
  lemma MarkerText(dropped: nat)
    ensures Marker(dropped) == "\n\n[truncated: " + Decimal(dropped) + MARKER_CLOSING
    ensures Decimal(dropped) <= Marker(dropped)[14..] && ValueOf(Decimal(dropped)) == dropped
  {
    hide Decimal, MARKER_CLOSING;
    DecimalReads(dropped);
    assert Marker(dropped)[14..] == Decimal(dropped) + MARKER_CLOSING;
  }

  lemma ClippedShows(blocks: seq<Block>, out: seq<Block>, limit: nat)
    requires |out| == |blocks| && forall i :: 0 <= i < |blocks| ==> out[i] == Clipped(blocks, limit, i)
    ensures ShowsTheBeginning(blocks, out, limit)
  {
    hide Marker;
    var kept := seq(|blocks|, i requires 0 <= i < |blocks| => Kept(blocks, limit, i));
    forall i | 0 <= i < |blocks| && blocks[i].TextBlock?
      ensures var text := blocks[i].text;
        if kept[i] == text then out[i] == blocks[i]
        else kept[i] <= text && out[i] == TextBlock(kept[i] + Marker(|text| - |kept[i]|))
    {
      KeptOrClipped(blocks, limit, i);
    }
    assert Shows(blocks, out, kept);
    JoinedKept(blocks, limit, kept, |blocks|);
    assert kept[..|blocks|] == kept;
    KeepsTheBeginning(blocks, limit);
  }

  lemma KeptOrClipped(blocks: seq<Block>, limit: nat, i: nat)
    requires i < |blocks| && blocks[i].TextBlock?
    ensures var text, kept := blocks[i].text, Kept(blocks, limit, i);
      if kept == text then Clipped(blocks, limit, i) == blocks[i]
      else kept <= text && Clipped(blocks, limit, i) == TextBlock(kept + Marker(|text| - |kept|))
  {
    hide Marker, AllText;
    assert Budget(blocks, limit, i) >= 0;
  }

  lemma {:induction false} JoinedKept(blocks: seq<Block>, limit: int, kept: seq<string>, n: nat)
    requires |kept| == |blocks| && n <= |blocks|
    requires forall i :: 0 <= i < |blocks| ==> kept[i] == Kept(blocks, limit, i)
    ensures Joined(kept[..n]) == AllKept(blocks, limit, n)
  {
    hide Kept;
    if n > 0 {
      JoinedKept(blocks, limit, kept, n - 1);
      assert kept[..n][..n - 1] == kept[..n - 1];
    }
  }

  lemma {:induction false} TextBefore(blocks: seq<Block>, i: nat)
    requires i <= |blocks|
    ensures HasText(blocks[..i]) <==> !(forall j :: 0 <= j < i ==> blocks[j].OtherBlock?)
  {
    if i > 0 {
      TextBefore(blocks, i - 1);
      assert blocks[..i][..i - 1] == blocks[..i - 1];
    }
  }

  lemma NegativeShows(blocks: seq<Block>, out: seq<Block>, limit: int)
    requires limit < 0 && |out| == |blocks| && forall i :: 0 <= i < |blocks| ==> out[i] == Clipped(blocks, limit, i)
    ensures ShowsTooLittle(blocks, out, limit)
  {
    hide Marker, HasText;
    forall i | 0 <= i < |blocks| && blocks[i].TextBlock?
      ensures var text := blocks[i].text;
        if forall j :: 0 <= j < i ==> blocks[j].OtherBlock?
        then out[i] == TextBlock(text[..Max0(|text| + limit)] + Marker(|text| - limit))
        else out[i] == if text == "" then blocks[i] else TextBlock("" + Marker(|text|))
    {
      TextBefore(blocks, i);
      NegativeClipped(blocks, limit, i);
    }
  }

  lemma NegativeClipped(blocks: seq<Block>, limit: int, i: nat)
    requires limit < 0 && i < |blocks| && blocks[i].TextBlock?
    ensures var text := blocks[i].text;
      Clipped(blocks, limit, i) ==
        if !HasText(blocks[..i]) then TextBlock(text[..Max0(|text| + limit)] + Marker(|text| - limit))
        else if text == "" then blocks[i] else TextBlock("" + Marker(|text|))
  {
    hide Marker, HasText;
    assert blocks[i].text[..0] == "";
  }

  /** The loop: block by block, with what is left of the budget. */
  method ClipBlocks(blocks: seq<Block>, limit: int) returns (out: seq<Block>)
    ensures |out| == |blocks|
    ensures forall i :: 0 <= i < |blocks| ==> out[i] == Clipped(blocks, limit, i)
  {
    hide Marker;
    out := [];
    var budget := limit;
    assert blocks[..0] == [] && !HasText([]);
    for i := 0 to |blocks|
      invariant |out| == i && budget == Budget(blocks, limit, i)
      invariant forall j :: 0 <= j < i ==> out[j] == Clipped(blocks, limit, j)
    {
      BudgetStep(blocks, limit, i);
      var block := blocks[i];
      if !block.TextBlock? {
        out := out + [block];
      } else if |block.text| <= budget {
        out := out + [block];
        budget := budget - |block.text|;
      } else {
        out := out + [TextBlock(Head(block.text, budget) + Marker(|block.text| - budget))];
        budget := 0;
      }
    }
  }

  function AllKept(blocks: seq<Block>, limit: int, n: nat): string
    requires n <= |blocks|
  {
    if n == 0 then "" else AllKept(blocks, limit, n - 1) + Kept(blocks, limit, n - 1)
  }

  function AllDropped(blocks: seq<Block>, limit: int, n: nat): nat
    requires n <= |blocks|
  {
    if n == 0 then 0 else AllDropped(blocks, limit, n - 1) + Dropped(blocks, limit, n - 1)
  }

  /** The beginning of a text with more behind it. */
  lemma BeginningOfBoth(before: string, here: string, limit: nat)
    ensures var text := before + here;
      text[..Min(|text|, limit)]
      == before[..Min(|before|, limit)] + here[..Min(|here|, limit - Min(limit, |before|))]
  {
  }

  lemma {:induction false} KeptSoFar(blocks: seq<Block>, limit: nat, n: nat)
    requires n <= |blocks|
    ensures var text := AllText(blocks[..n]);
      && AllKept(blocks, limit, n) == text[..Min(|text|, limit)]
      && AllDropped(blocks, limit, n) == |text| - Min(|text|, limit)
  {
    if n == 0 {
      assert blocks[..0] == [];
    } else {
      KeptSoFar(blocks, limit, n - 1);
      assert blocks[..n][..n - 1] == blocks[..n - 1];
      var before, here := AllText(blocks[..n - 1]), if blocks[n - 1].TextBlock? then blocks[n - 1].text else "";
      BeginningOfBoth(before, here, limit);
      assert AllText(blocks[..n]) == before + here;
      hide AllText;
    }
  }

  /**
   The text that survives is exactly the beginning of all the text, as much as the limit allows, and the counts the
   markers report add up to the rest.
   */
  lemma KeepsTheBeginning(blocks: seq<Block>, limit: nat)
    ensures var text := AllText(blocks);
      && AllKept(blocks, limit, |blocks|) == text[..Min(|text|, limit)]
      && |AllKept(blocks, limit, |blocks|)| + AllDropped(blocks, limit, |blocks|) == |text|
  {
    KeptSoFar(blocks, limit, |blocks|);
    assert blocks[..|blocks|] == blocks;
  }

  /** Under a negative limit what is kept and what is reported lost are together more than the text, if there is any. */
  lemma {:induction false} NegativeSoFar(blocks: seq<Block>, limit: int, n: nat)
    requires limit < 0 && n <= |blocks|
    ensures |AllKept(blocks, limit, n)| + AllDropped(blocks, limit, n) >= |AllText(blocks[..n])|
    ensures HasText(blocks[..n]) ==> |AllKept(blocks, limit, n)| + AllDropped(blocks, limit, n) > |AllText(blocks[..n])|
    ensures !HasText(blocks[..n]) ==> AllKept(blocks, limit, n) == "" && AllDropped(blocks, limit, n) == 0
    ensures !HasText(blocks[..n]) ==> AllText(blocks[..n]) == ""
  {
    if n == 0 {
      assert blocks[..0] == [];
    } else {
      NegativeSoFar(blocks, limit, n - 1);
      BudgetStep(blocks, limit, n - 1);
      assert blocks[..n][..n - 1] == blocks[..n - 1] && blocks[..n][n - 1] == blocks[n - 1];
    }
  }

  /** Exactly when the reported counts are right: for limits that are not negative, or where there is no text at all. */
  lemma CountsAddUpExactly(blocks: seq<Block>, limit: int)
    ensures |AllKept(blocks, limit, |blocks|)| + AllDropped(blocks, limit, |blocks|) == |AllText(blocks)|
      <==> limit >= 0 || !HasText(blocks)
  {
    assert blocks[..|blocks|] == blocks;
    if limit >= 0 {
      KeepsTheBeginning(blocks, limit);
    } else {
      NegativeSoFar(blocks, limit, |blocks|);
    }
  }

  /** Results that fit are untouched, and when they do not fit some block reports it; other blocks never change. */
  lemma ClipsOnlyWhatDoesNotFit(blocks: seq<Block>, limit: nat)
    ensures |AllText(blocks)| <= limit ==> forall i :: 0 <= i < |blocks| ==> Clipped(blocks, limit, i) == blocks[i]
    ensures |AllText(blocks)| > limit ==> exists i :: 0 <= i < |blocks| && Dropped(blocks, limit, i) > 0
    ensures forall i :: 0 <= i < |blocks| && blocks[i].OtherBlock? ==> Clipped(blocks, limit, i) == blocks[i]
  {
    KeepsTheBeginning(blocks, limit);
    DroppedSum(blocks, limit, |blocks|);
  }

  lemma {:induction false} DroppedSum(blocks: seq<Block>, limit: int, n: nat)
    requires n <= |blocks|
    ensures AllDropped(blocks, limit, n) == 0 <==> forall i :: 0 <= i < n ==> Dropped(blocks, limit, i) == 0
  {
    if n > 0 {
      DroppedSum(blocks, limit, n - 1);
    }
  }
}
