/** Character classes and scans shared by the text parsers. */
module TextScan {
  import opened TunnelProtocol

  predicate IsDigit(c: char) {
    '0' <= c <= '9'
  }

  predicate IsBlank(c: char) {
    c == ' ' || c == '\t'
  }

  predicate AllBlank(text: string) {
    forall i :: 0 <= i < |text| ==> IsBlank(text[i])
  }

  function DigitValue(c: char): nat
    requires IsDigit(c)
  {
    (c - '0') as nat
  }

  /** The length of the text before the first comma. */
  function ItemLength(text: string): (n: nat)
    ensures n <= |text|
    ensures n < |text| ==> text[n] == ','
    ensures forall i :: 0 <= i < n ==> text[i] != ','
  {
    if text == [] || text[0] == ',' then 0 else 1 + ItemLength(text[1..])
  }

  function TrimFront(text: string): (r: string)
    ensures |r| <= |text|
  {
    if text != [] && IsBlank(text[0]) then TrimFront(text[1..]) else text
  }

  function TrimBack(text: string): (r: string)
    ensures |r| <= |text|
  {
    if text != [] && IsBlank(text[|text| - 1]) then TrimBack(text[..|text| - 1]) else text
  }

  function Trim(text: string): string {
    TrimBack(TrimFront(text))
  }

  /** The index of the first `c` at or after `from`, or the text's length. */
  function FindChar(text: string, c: char, from: nat): (i: nat)
    requires from <= |text|
    ensures from <= i <= |text|
    ensures i < |text| ==> text[i] == c
    ensures forall j :: from <= j < i ==> text[j] != c
    decreases |text| - from
  {
    if from == |text| || text[from] == c then from else FindChar(text, c, from + 1)
  }

  /** The index of the last `c` before `before`, if any. */
  function FindLastChar(text: string, c: char, before: nat): (i: Option<nat>)
    requires before <= |text|
    ensures i.Some? ==> i.value < before && text[i.value] == c
    ensures i.Some? ==> forall j :: i.value < j < before ==> text[j] != c
    ensures i.None? ==> forall j :: 0 <= j < before ==> text[j] != c
    decreases before
  {
    if before == 0 then None
    else if text[before - 1] == c then Some(before - 1)
    else FindLastChar(text, c, before - 1)
  }

  // ---------------------------------------------------------------------------------------------
  // Scans of concatenated text

  lemma FindCharIn(head: string, c: char, tail: string)
    requires c !in head
    ensures FindChar(head + [c] + tail, c, 0) == |head| && FindChar(head, c, 0) == |head|
  {
    assert (head + [c] + tail)[|head|] == c;
    forall i | 0 <= i < |head| ensures (head + [c] + tail)[i] != c {
      assert (head + [c] + tail)[i] == head[i];
    }
  }

  lemma LastCharAt(text: string, c: char, at: nat)
    requires at < |text| && text[at] == c && forall i :: at < i < |text| ==> text[i] != c
    ensures FindLastChar(text, c, |text|) == Some(at)
  {
    hide FindLastChar;
  }

  lemma FindLastCharIn(head: string, c: char, tail: string)
    requires c !in tail
    ensures FindLastChar(head + [c] + tail, c, |head + [c] + tail|) == Some(|head|)
  {
    var text := head + [c] + tail;
    assert text[|head|] == c;
    forall i | |head| < i < |text| ensures text[i] != c {
      assert text[i] == tail[i - |head| - 1];
    }
    LastCharAt(text, c, |head|);
  }

  /** Trimming removes exactly the blanks around a text that has none at its ends. */
  lemma {:induction false} TrimBackBlanks(text: string, blanks: string)
    requires text != [] && !IsBlank(text[|text| - 1]) && AllBlank(blanks)
    ensures TrimBack(text + blanks) == text
  {
    if blanks == [] {
      assert text + blanks == text;
    } else {
      var whole := text + blanks;
      assert whole[|whole| - 1] == blanks[|blanks| - 1];
      assert whole[..|whole| - 1] == text + blanks[..|blanks| - 1];
      TrimBackBlanks(text, blanks[..|blanks| - 1]);
    }
  }

  lemma TrimmedText(text: string, blanks: string)
    requires text != [] && !IsBlank(text[0]) && !IsBlank(text[|text| - 1]) && AllBlank(blanks)
    ensures Trim(text + blanks) == text && Trim(text) == text
  {
    TrimBackBlanks(text, blanks);
    assert (text + blanks)[0] == text[0];
  }
}
