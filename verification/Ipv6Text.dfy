/**
 * IPv6 address text.  The parser is modelled as it runs, with its fixed word table shifted in place,
 * and proved to read back every spelling of every address, in full or with a run of zero words
 * compressed.
 */
module Ipv6Text {
  import opened Counting
  import opened TunnelProtocol
  import opened TextScan

  const WORDS: nat := 8

  function HexDigit(c: char): (d: Option<nat>)
    ensures d.Some? ==> d.value < 16
  {
    if '0' <= c <= '9' then Some((c - '0') as nat)
    else if 'a' <= c <= 'f' then Some((c - 'a') as nat + 10)
    else if 'A' <= c <= 'F' then Some((c - 'A') as nat + 10)
    else None
  }

  /** The value of hexadecimal digits read after `value`. */
  function ReadHex(text: string, value: nat): Option<nat> {
    if text == [] then Some(value)
    else
      var digit := HexDigit(text[0]);
      if digit.None? then None else ReadHex(text[1..], value * 16 + digit.value)
  }

  /** A word: one to four digits. */
  function ReadWord(text: string): (w: Option<U16>)
    ensures w.Some? ==> 1 <= |text| <= 4
  {
    if text == [] || |text| > 4 || ReadHex(text, 0).None? then None
    else
      WordBound(text);
      Some(ReadHex(text, 0).value)
  }

  function Power16(n: nat): nat {
    if n == 0 then 1 else 16 * Power16(n - 1)
  }

  lemma WordBound(text: string)
    requires |text| <= 4
    ensures ReadHex(text, 0).Some? ==> ReadHex(text, 0).value < 0x1_0000
  {
    if ReadHex(text, 0).Some? {
      var cases := PrintsRead(text);
      Power16Grows(|text|, 4);
      assert Power16(4) == 16 * (16 * (16 * (16 * Power16(0))));
    }
  }

  lemma {:induction false} Power16Grows(m: nat, n: nat)
    requires m <= n
    ensures Power16(m) <= Power16(n)
  {
    if m < n {
      Power16Grows(m, n - 1);
    }
  }

  /** The words read and where the compression stands; WORDS stands for none. */
  datatype Reading = Reading(words: seq<U16>, compressedAt: nat)

  /** Reads the words of `text` after those already read. */
  function ReadWords(text: string, words: seq<U16>, compressedAt: nat): (r: Option<Reading>)
    requires |words| <= WORDS && compressedAt <= WORDS && (compressedAt == WORDS || compressedAt <= |words|)
    ensures r.Some? ==> |r.value.words| <= WORDS
    ensures r.Some? ==> r.value.compressedAt == WORDS || r.value.compressedAt <= |r.value.words|
    decreases |text|
  {
    if text == [] then Some(Reading(words, compressedAt))
    else if |words| == WORDS then None
    else
      var delimiter := FindChar(text, ':', 0);
      var word := ReadWord(text[..delimiter]);
      if word.None? then None
      else
        var next := words + [word.value];
        if delimiter == |text| then Some(Reading(next, compressedAt))
        else if delimiter + 1 < |text| && text[delimiter + 1] == ':'
        then if compressedAt != WORDS then None else ReadWords(text[delimiter + 2..], next, |next|)
        else ReadWords(text[delimiter + 1..], next, compressedAt)
  }

  /** One step of a reading. */
  lemma ReadWordsStep(text: string, words: seq<U16>, compressedAt: nat, delimiter: nat)
    requires text != [] && |words| < WORDS && compressedAt <= WORDS && (compressedAt == WORDS || compressedAt <= |words|)
    requires delimiter == FindChar(text, ':', 0)
    ensures var word := ReadWord(text[..delimiter]);
            ReadWords(text, words, compressedAt) ==
              if word.None? then None
              else if delimiter == |text| then Some(Reading(words + [word.value], compressedAt))
              else if delimiter + 1 < |text| && text[delimiter + 1] == ':'
              then if compressedAt != WORDS then None else ReadWords(text[delimiter + 2..], words + [word.value], |words| + 1)
              else ReadWords(text[delimiter + 1..], words + [word.value], compressedAt)
  {
    hide FindChar, ReadWord;
  }

  lemma NoMoreWords(text: string, words: seq<U16>, compressedAt: nat)
    requires text != [] && |words| == WORDS && compressedAt <= WORDS
    ensures ReadWords(text, words, compressedAt) == None
  {
  }

  /** The address a reading stands for, once its compressed run is filled with zero words. */
  function Expand(r: Reading): (words: Option<seq<U16>>)
    requires |r.words| <= WORDS && (r.compressedAt == WORDS || r.compressedAt <= |r.words|)
    ensures words.Some? ==> |words.value| == WORDS
  {
    if r.compressedAt == WORDS then (if |r.words| == WORDS then Some(r.words) else None)
    else if |r.words| >= WORDS then None
    else Some(r.words[..r.compressedAt] + Repeat(0, WORDS - |r.words|) + r.words[r.compressedAt..])
  }

  function ParseWords(text: string): (words: Option<seq<U16>>)
    ensures words.Some? ==> |words.value| == WORDS
  {
    if text == [] then None
    else if text[0] == ':' && (|text| < 2 || text[1] != ':') then None
    else
      var reading := if text[0] == ':' then ReadWords(text[2..], [], 0) else ReadWords(text, [], WORDS);
      if reading.None? then None else Expand(reading.value)
  }

  // ---------------------------------------------------------------------------------------------
  // Spellings: words printed by division

  const LOWER: string := "0123456789abcdef"
  const UPPER: string := "0123456789ABCDEF"

  function PrintDigit(value: nat, upper: bool): char
    requires value < 16
  {
    if upper then UPPER[value] else LOWER[value]
  }

  /** The last |cases| hexadecimal digits of a number, each in the case chosen for it. */
  function PrintHex(value: nat, cases: seq<bool>): string
    decreases |cases|
  {
    if cases == [] then ""
    else PrintHex(value / 16, cases[..|cases| - 1]) + [PrintDigit(value % 16, cases[|cases| - 1])]
  }

  /** `text` prints `word` in one to four digits that are enough for it, any letter in either case. */
  ghost predicate Spells(text: string, word: U16) {
    exists cases :: 1 <= |cases| <= 4 && word < Power16(|cases|) && text == PrintHex(word, cases)
  }

  ghost predicate Spelling(texts: seq<string>, words: seq<U16>) {
    |texts| == |words| && forall i :: 0 <= i < |texts| ==> Spells(texts[i], words[i])
  }

  lemma {:induction false} ReadHexSnoc(text: string, c: char, value: nat)
    ensures ReadHex(text + [c], value) ==
            if ReadHex(text, value).None? || HexDigit(c).None? then None
            else Some(ReadHex(text, value).value * 16 + HexDigit(c).value)
  {
    var all := text + [c];
    if text == [] {
      assert all[1..] == [];
      assert HexDigit(c).Some? ==> ReadHex(all, value) == ReadHex([], value * 16 + HexDigit(c).value);
    } else if HexDigit(text[0]).Some? {
      assert all[1..] == text[1..] + [c];
      ReadHexSnoc(text[1..], c, value * 16 + HexDigit(text[0]).value);
    }
  }

  /** The two tables are what the reader takes for digits, and nothing else is. */
  lemma DigitTables(c: char, value: nat)
    requires value < 16
    ensures HexDigit(c) == Some(value) <==> c == PrintDigit(value, false) || c == PrintDigit(value, true)
  {
    PrintedDigit(value, false);
    PrintedDigit(value, true);
    hide PrintDigit;
  }

  lemma PrintedDigit(value: nat, upper: bool)
    requires value < 16
    ensures PrintDigit(value, upper) ==
            if value < 10 then '0' + value as char else (if upper then 'A' else 'a') + (value - 10) as char
  {
    if upper {
      assert UPPER[0] == '0' && UPPER[1] == '1' && UPPER[2] == '2' && UPPER[3] == '3' && UPPER[4] == '4' && UPPER[5] == '5';
      assert UPPER[6] == '6' && UPPER[7] == '7' && UPPER[8] == '8' && UPPER[9] == '9' && UPPER[10] == 'A' && UPPER[11] == 'B';
      assert UPPER[12] == 'C' && UPPER[13] == 'D' && UPPER[14] == 'E' && UPPER[15] == 'F';
    } else {
      assert LOWER[0] == '0' && LOWER[1] == '1' && LOWER[2] == '2' && LOWER[3] == '3' && LOWER[4] == '4' && LOWER[5] == '5';
      assert LOWER[6] == '6' && LOWER[7] == '7' && LOWER[8] == '8' && LOWER[9] == '9' && LOWER[10] == 'a' && LOWER[11] == 'b';
      assert LOWER[12] == 'c' && LOWER[13] == 'd' && LOWER[14] == 'e' && LOWER[15] == 'f';
    }
  }

  lemma {:induction false} ReadsPrinted(value: nat, cases: seq<bool>)
    requires value < Power16(|cases|)
    ensures |PrintHex(value, cases)| == |cases| && ReadHex(PrintHex(value, cases), 0) == Some(value)
    decreases |cases|
  {
    if cases != [] {
      var n := |cases| - 1;
      ReadsPrinted(value / 16, cases[..n]);
      DigitTables(PrintDigit(value % 16, cases[n]), value % 16);
      ReadHexSnoc(PrintHex(value / 16, cases[..n]), PrintDigit(value % 16, cases[n]), 0);
    }
  }

  lemma {:induction false} PrintsRead(text: string) returns (cases: seq<bool>)
    requires ReadHex(text, 0).Some?
    ensures |cases| == |text| && ReadHex(text, 0).value < Power16(|text|) && text == PrintHex(ReadHex(text, 0).value, cases)
    decreases |text|
  {
    hide HexDigit, PrintDigit;
    cases := [];
    if text != [] {
      var front, c := text[..|text| - 1], text[|text| - 1];
      assert text == front + [c];
      ReadHexSnoc(front, c, 0);
      var value, digit := ReadHex(front, 0).value, HexDigit(c).value;
      var before := PrintsRead(front);
      DigitTables(c, digit);
      cases := before + [c == PrintDigit(digit, true)];
      assert cases[..|text| - 1] == before && (value * 16 + digit) / 16 == value && (value * 16 + digit) % 16 == digit;
    }
  }

  /** The reader reads back every printed word, and reads nothing else. */
  lemma ReadWordExact(text: string, word: U16)
    ensures ReadWord(text) == Some(word) <==> Spells(text, word)
  {
    if Spells(text, word) {
      var cases :| 1 <= |cases| <= 4 && word < Power16(|cases|) && text == PrintHex(word, cases);
      ReadsPrinted(word, cases);
    }
    if ReadWord(text) == Some(word) {
      var cases := PrintsRead(text);
    }
  }

  /** Every word has a spelling in each width that is enough for it, whatever the cases of its letters. */
  lemma EveryWordSpelled(word: U16, cases: seq<bool>)
    requires 1 <= |cases| <= 4 && word < Power16(|cases|)
    ensures Spells(PrintHex(word, cases), word) && |PrintHex(word, cases)| == |cases|
    ensures ReadWord(PrintHex(word, cases)) == Some(word)
  {
    ReadsPrinted(word, cases);
    ReadWordExact(PrintHex(word, cases), word);
  }

  // ---------------------------------------------------------------------------------------------
  // Joined words

  predicate Reads(text: string, word: U16) {
    ReadWord(text) == Some(word)
  }

  predicate AllRead(texts: seq<string>, words: seq<U16>) {
    |texts| == |words| && forall i :: 0 <= i < |texts| ==> Reads(texts[i], words[i])
  }

  lemma SpellingRead(texts: seq<string>, words: seq<U16>)
    ensures Spelling(texts, words) <==> AllRead(texts, words)
  {
    hide ReadWord, Spells;
    if |texts| == |words| {
      forall i | 0 <= i < |texts| ensures Reads(texts[i], words[i]) <==> Spells(texts[i], words[i]) {
        ReadWordExact(texts[i], words[i]);
      }
    }
  }

  function Join(texts: seq<string>): string {
    if texts == [] then ""
    else if |texts| == 1 then texts[0]
    else texts[0] + ":" + Join(texts[1..])
  }

  lemma {:induction false} HexHasNoColon(text: string, value: nat)
    ensures ReadHex(text, value).Some? ==> ':' !in text
  {
    if text != [] && HexDigit(text[0]).Some? {
      HexHasNoColon(text[1..], value * 16 + HexDigit(text[0]).value);
      assert text == [text[0]] + text[1..];
    }
  }

  /** One more word, followed by a separator that does not start a compression. */
  lemma ReadOne(text: string, word: U16, rest: string, words: seq<U16>, compressedAt: nat)
    requires Reads(text, word) && |words| < WORDS && compressedAt <= WORDS
    requires compressedAt == WORDS || compressedAt <= |words|
    ensures ReadWords(text, words, compressedAt) == Some(Reading(words + [word], compressedAt))
    ensures (rest == [] || rest[0] != ':') ==>
      ReadWords(text + ":" + rest, words, compressedAt) == ReadWords(rest, words + [word], compressedAt)
    ensures compressedAt == WORDS ==>
      ReadWords(text + "::" + rest, words, compressedAt) == ReadWords(rest, words + [word], |words| + 1)
  {
    HexHasNoColon(text, 0);
    hide FindChar, ReadWord, ReadWords;
    FindCharIn(text, ':', rest);
    assert text[..|text|] == text;
    ReadWordsStep(text, words, compressedAt, |text|);
    var single := text + ":" + rest;
    assert single[..|text|] == text && single[|text| + 1..] == rest;
    if |text| + 1 < |single| {
      assert single[|text| + 1] == rest[0];
    }
    ReadWordsStep(single, words, compressedAt, |text|);
    FindCharIn(text, ':', ":" + rest);
    var double := text + "::" + rest;
    assert double == text + ":" + (":" + rest);
    assert double[..|text|] == text && double[|text| + 1] == ':' && double[|text| + 2..] == rest;
    ReadWordsStep(double, words, compressedAt, |text|);
  }

  /** Spelled words are read back one by one; one colon may trail them. */
  lemma {:induction false} ReadJoined(texts: seq<string>, trail: string, more: seq<U16>, words: seq<U16>, compressedAt: nat)
    requires AllRead(texts, more) && |words| + |more| <= WORDS && compressedAt <= WORDS
    requires compressedAt == WORDS || compressedAt <= |words|
    requires trail == "" || (trail == ":" && texts != [])
    ensures ReadWords(Join(texts) + trail, words, compressedAt) == Some(Reading(words + more, compressedAt))
    decreases |texts|
  {
    if texts == [] {
      assert words + more == words;
    } else {
      assert Reads(texts[0], more[0]);
      assert words + [more[0]] + more[1..] == words + more;
      if |texts| == 1 {
        assert more == [more[0]] && texts[0] + "" == texts[0] && texts[0] + ":" + "" == texts[0] + ":";
        ReadOne(texts[0], more[0], "", words, compressedAt);
      } else {
        var rest := Join(texts[1..]) + trail;
        assert Join(texts) + trail == texts[0] + ":" + rest;
        JoinStart(texts[1..], more[1..]);
        ReadOne(texts[0], more[0], rest, words, compressedAt);
        ReadJoined(texts[1..], trail, more[1..], words + [more[0]], compressedAt);
      }
    }
  }

  lemma JoinStart(texts: seq<string>, words: seq<U16>)
    requires AllRead(texts, words) && texts != []
    ensures Join(texts) != [] && Join(texts)[0] != ':'
  {
    assert Reads(texts[0], words[0]);
    HexHasNoColon(texts[0], 0);
  }

  /** Words followed by a compression, then by the words behind it. */
  lemma {:induction false} ReadCompressed(texts: seq<string>, more: seq<U16>, tail: string, words: seq<U16>)
    requires texts != [] && AllRead(texts, more) && |words| + |more| <= WORDS
    ensures ReadWords(Join(texts) + "::" + tail, words, WORDS) == ReadWords(tail, words + more, |words| + |more|)
    decreases |texts|
  {
    hide ReadWords, Reads;
    assert Reads(texts[0], more[0]);
    assert words + [more[0]] + more[1..] == words + more;
    if |texts| == 1 {
      ReadOne(texts[0], more[0], tail, words, WORDS);
      assert more == [more[0]];
    } else {
      var rest := Join(texts[1..]) + "::" + tail;
      assert Join(texts) + "::" + tail == texts[0] + ":" + rest;
      JoinStart(texts[1..], more[1..]);
      ReadOne(texts[0], more[0], rest, words, WORDS);
      ReadCompressed(texts[1..], more[1..], tail, words + [more[0]]);
    }
  }

  // ---------------------------------------------------------------------------------------------
  // The accepted language

  /** Eight spelled words between colons; the parser also lets one or two colons trail. */
  ghost predicate FullForm(text: string, words: seq<U16>, texts: seq<string>, trail: string) {
    |words| == WORDS && Spelling(texts, words) && trail in {"", ":", "::"} && text == Join(texts) + trail
  }

  /** The words from `from` to `to` are zero and stand as "::"; one colon may trail words behind it. */
  ghost predicate CompressedForm(
    text: string, words: seq<U16>, front: seq<string>, back: seq<string>, trail: string, from: nat, to: nat)
  {
    |words| == WORDS && from < to <= WORDS && (forall i :: from <= i < to ==> words[i] == 0) &&
    Spelling(front, words[..from]) && Spelling(back, words[to..]) &&
    (trail == "" || (trail == ":" && back != [])) && text == Join(front) + "::" + (Join(back) + trail)
  }

  /** Round trip, full form, in any spelling. */
  lemma FullFormRoundTrip(text: string, words: seq<U16>, texts: seq<string>, trail: string)
    requires FullForm(text, words, texts, trail)
    ensures ParseWords(text) == Some(words) && ParseIpv6(text) == Some(ToBytes(words))
  {
    assert texts != [];
    SpellingRead(texts, words);
    hide ReadWords, AllRead, Spelling, Join;
    JoinStart(texts, words);
    assert [] + words == words && text[0] == Join(texts)[0];
    if trail == "::" {
      assert text == Join(texts) + "::" + "";
      ReadCompressed(texts, words, "", []);
      ReadNothing(words, WORDS);
    } else {
      ReadJoined(texts, trail, words, [], WORDS);
    }
  }

  /** Round trip, compressed form: any run of at least one zero word may be replaced by "::". */
  lemma CompressedFormRoundTrip(
    text: string, words: seq<U16>, front: seq<string>, back: seq<string>, trail: string, from: nat, to: nat)
    requires CompressedForm(text, words, front, back, trail, from, to)
    ensures ParseWords(text) == Some(words) && ParseIpv6(text) == Some(ToBytes(words))
  {
    SpellingRead(front, words[..from]);
    SpellingRead(back, words[to..]);
    hide ReadWords, AllRead, Spelling, Join;
    var tail := Join(back) + trail;
    ReadJoined(back, trail, words[to..], words[..from], from);
    ReadFront(front, words[..from], tail);
    assert text == Join(front) + "::" + tail;
    ExpandZeros(words, from, to);
  }

  /** The words in front of a compression, none of them included. */
  lemma ReadFront(front: seq<string>, words: seq<U16>, tail: string)
    requires AllRead(front, words) && |words| < WORDS
    ensures var text := Join(front) + "::" + tail;
            |text| >= 2 && (text[0] == ':' ==> text[1] == ':') &&
            (if text[0] == ':' then ReadWords(text[2..], [], 0) else ReadWords(text, [], WORDS)) == ReadWords(tail, words, |words|)
  {
    hide ReadWords;
    var text := Join(front) + "::" + tail;
    if front == [] {
      assert words == [] && text[2..] == tail;
    } else {
      JoinStart(front, words);
      ReadCompressed(front, words, tail, []);
      assert [] + words == words && text[0] == Join(front)[0];
    }
  }

  lemma ExpandZeros(words: seq<U16>, from: nat, to: nat)
    requires |words| == WORDS && from < to <= WORDS && forall i :: from <= i < to ==> words[i] == 0
    ensures Expand(Reading(words[..from] + words[to..], from)) == Some(words)
  {
    var all := words[..from] + words[to..];
    assert all[..from] == words[..from] && all[from..] == words[to..];
    assert words == words[..from] + Repeat(0, to - from) + words[to..];
  }

  datatype Separator = End | Single | Double

  /** How a successful reading takes its first word. */
  lemma ReadStep(text: string, words: seq<U16>, compressedAt: nat)
    returns (component: string, word: U16, separator: Separator, rest: string)
    requires |words| <= WORDS && compressedAt <= WORDS && (compressedAt == WORDS || compressedAt <= |words|)
    requires text != [] && ReadWords(text, words, compressedAt).Some?
    ensures |words| < WORDS && Reads(component, word) && |rest| < |text|
    ensures separator == End ==> text == component && ReadWords(text, words, compressedAt).value == Reading(words + [word], compressedAt)
    ensures separator == Single ==>
      text == component + ":" + rest && ReadWords(text, words, compressedAt) == ReadWords(rest, words + [word], compressedAt)
    ensures separator == Double ==> compressedAt == WORDS && text == component + "::" + rest
    ensures separator == Double ==> ReadWords(text, words, WORDS) == ReadWords(rest, words + [word], |words + [word]|)
  {
    var delimiter := FindChar(text, ':', 0);
    component, rest := text[..delimiter], [];
    word := ReadWord(component).value;
    if delimiter == |text| {
      separator := End;
    } else if delimiter + 1 < |text| && text[delimiter + 1] == ':' {
      separator, rest := Double, text[delimiter + 2..];
      assert text == component + "::" + rest;
    } else {
      separator, rest := Single, text[delimiter + 1..];
      assert text == component + ":" + rest;
    }
  }

  lemma ReadNothing(words: seq<U16>, compressedAt: nat)
    requires |words| <= WORDS && compressedAt <= WORDS && (compressedAt == WORDS || compressedAt <= |words|)
    ensures ReadWords([], words, compressedAt) == Some(Reading(words, compressedAt))
  {
  }

  /** What a successful reading says about its text, once the compression has been seen. */
  lemma {:induction false} ReadBack(text: string, words: seq<U16>, compressedAt: nat)
    returns (texts: seq<string>, more: seq<U16>, trail: string)
    requires |words| <= WORDS && compressedAt <= WORDS && (compressedAt == WORDS || compressedAt <= |words|)
    requires ReadWords(text, words, compressedAt).Some?
    requires compressedAt != WORDS || ReadWords(text, words, compressedAt).value.compressedAt == WORDS
    ensures AllRead(texts, more) && ReadWords(text, words, compressedAt).value.words == words + more
    ensures text == Join(texts) + trail
    ensures trail in {"", ":", "::"} && (trail != "" ==> texts != [])
    ensures trail == "::" ==> compressedAt == WORDS && |words + more| == WORDS
    decreases |text|
  {
    hide ReadWords, Reads;
    if text == [] {
      ReadNothing(words, compressedAt);
      return [], [], "";
    }
    var component, word, separator, rest := ReadStep(text, words, compressedAt);
    texts, more, trail := [component], [word], "";
    match separator
    case End =>
    case Double =>
      trail := EndsAtEight(rest, words + [word]);
    case Single =>
      var texts', more';
      texts', more', trail := ReadBack(rest, words + [word], compressedAt);
      assert words + [word] + more' == words + ([word] + more');
      if texts' == [] {
        trail := ":";
      } else {
        assert texts == [component] && Join([component] + texts') == component + ":" + Join(texts') by {
          assert ([component] + texts')[1..] == texts';
        }
        texts, more := [component] + texts', [word] + more';
      }
  }

  /** A "::" after the eighth word leaves no compression on record and nothing behind it. */
  lemma EndsAtEight(rest: string, words: seq<U16>) returns (trail: string)
    requires 0 < |words| <= WORDS && ReadWords(rest, words, |words|).Some?
    requires ReadWords(rest, words, |words|).value.compressedAt == WORDS
    ensures rest == [] && |words| == WORDS && trail == "::"
    ensures ReadWords(rest, words, |words|).value.words == words
  {
    trail := "::";
    if |words| < WORDS {
      KeepsCompression(rest, words, |words|);
    }
  }

  lemma CompressionPlace(rest: string, words: seq<U16>)
    requires 0 < |words| <= WORDS
    ensures ReadWords(rest, words, |words|).Some? ==> ReadWords(rest, words, |words|).value.compressedAt == |words|
  {
    if |words| < WORDS {
      KeepsCompression(rest, words, |words|);
    }
  }

  lemma {:induction false} KeepsCompression(text: string, words: seq<U16>, compressedAt: nat)
    requires |words| <= WORDS && compressedAt <= |words| && compressedAt < WORDS
    ensures ReadWords(text, words, compressedAt).Some? ==> ReadWords(text, words, compressedAt).value.compressedAt == compressedAt
    decreases |text|
  {
    if text != [] && |words| < WORDS {
      var delimiter := FindChar(text, ':', 0);
      var word := ReadWord(text[..delimiter]);
      if word.Some? && delimiter < |text| {
        KeepsCompression(text[delimiter + 1..], words + [word.value], compressedAt);
      }
    }
  }

  /** What a successful reading that meets a compression says about its text. */
  lemma {:induction false} ReadBackCompressed(text: string, words: seq<U16>)
    returns (front: seq<string>, before: seq<U16>, back: seq<string>, behind: seq<U16>, trail: string)
    requires |words| <= WORDS && ReadWords(text, words, WORDS).Some?
    requires ReadWords(text, words, WORDS).value.compressedAt != WORDS
    ensures front != [] && AllRead(front, before) && AllRead(back, behind) && (trail == "" || (trail == ":" && back != []))
    ensures text == Join(front) + "::" + (Join(back) + trail)
    ensures ReadWords(text, words, WORDS).value == Reading(words + before + behind, |words + before|)
    decreases |text|
  {
    hide ReadWords, Reads;
    if text == [] {
      ReadNothing(words, WORDS);
    }
    var component, word, separator, rest := ReadStep(text, words, WORDS);
    var next := words + [word];
    if separator == Double {
      front, before := [component], [word];
      CompressionPlace(rest, next);
      back, behind, trail := ReadBack(rest, next, |next|);
    } else {
      front, before, back, behind, trail := ReadBackCompressed(rest, next);
      assert ([component] + front)[1..] == front;
      assert next + before == words + ([word] + before);
      front, before := [component] + front, [word] + before;
    }
  }

  /** Nothing else is accepted: an accepted text has one of the two forms. */
  lemma AcceptedTextHasForm(text: string, words: seq<U16>)
    requires ParseWords(text) == Some(words)
    ensures (exists texts, trail :: FullForm(text, words, texts, trail)) ||
            (exists front, back, trail, from, to :: CompressedForm(text, words, front, back, trail, from, to))
  {
    if text[0] == ':' {
      StartsCompressed(text, words);
    } else {
      var reading := ReadWords(text, [], WORDS).value;
      if reading.compressedAt == WORDS {
        EndsFull(text, words);
      } else {
        EndsCompressed(text, words);
      }
    }
  }

  lemma StartsCompressed(text: string, words: seq<U16>)
    requires ParseWords(text) == Some(words) && text[0] == ':'
    ensures exists front, back, trail, from, to :: CompressedForm(text, words, front, back, trail, from, to)
  {
    KeepsCompression(text[2..], [], 0);
    var back, behind, trail := ReadBack(text[2..], [], 0);
    hide ReadWords, CompressedForm, Spelling, AllRead;
    assert [] + behind == behind && Join([]) == "" && text == "::" + text[2..];
    assert text == Join([]) + "::" + (Join(back) + trail);
    hide Join;
    NothingSpelled();
    SpellingRead(back, behind);
    ExpandedForm(text, words, [], [], back, behind, trail);
  }

  lemma NothingSpelled()
    ensures Spelling([], [])
  {
  }

  lemma EndsFull(text: string, words: seq<U16>)
    requires ParseWords(text) == Some(words) && text[0] != ':' && ReadWords(text, [], WORDS).value.compressedAt == WORDS
    ensures exists texts, trail :: FullForm(text, words, texts, trail)
  {
    var texts, more, trail := ReadBack(text, [], WORDS);
    hide ReadWords, Spelling, AllRead, Join;
    assert [] + more == more;
    SpellingRead(texts, more);
    assert FullForm(text, words, texts, trail);
  }

  lemma EndsCompressed(text: string, words: seq<U16>)
    requires ParseWords(text) == Some(words) && text[0] != ':' && ReadWords(text, [], WORDS).value.compressedAt != WORDS
    ensures exists front, back, trail, from, to :: CompressedForm(text, words, front, back, trail, from, to)
  {
    var front, before, back, behind, trail := ReadBackCompressed(text, []);
    hide ReadWords, CompressedForm, Spelling, AllRead, Join;
    assert [] + before == before;
    SpellingRead(front, before);
    SpellingRead(back, behind);
    ExpandedForm(text, words, front, before, back, behind, trail);
  }

  /** Words are determined by their bytes. */
  lemma BytesDetermineWords(a: seq<U16>, b: seq<U16>)
    ensures ToBytes(a) == ToBytes(b) <==> a == b
  {
    if ToBytes(a) == ToBytes(b) {
      assert |a| == |b|;
      forall i | 0 <= i < |a| ensures a[i] == b[i] {
        assert ToBytes(a)[2 * i] == ToBytes(b)[2 * i] && ToBytes(a)[2 * i + 1] == ToBytes(b)[2 * i + 1];
        assert a[i] == a[i] / 256 * 256 + a[i] % 256 && b[i] == b[i] / 256 * 256 + b[i] % 256;
      }
    }
  }

  /**
   * The accepted language: a text reads as the sixteen bytes of eight words exactly when it prints them in one
   * of the two forms.
   */
  lemma AcceptsExactly(text: string, words: seq<U16>)
    ensures ParseIpv6(text) == Some(ToBytes(words)) <==>
            (exists texts, trail :: FullForm(text, words, texts, trail)) ||
            (exists front, back, trail, from, to :: CompressedForm(text, words, front, back, trail, from, to))
  {
    if ParseIpv6(text) == Some(ToBytes(words)) {
      BytesDetermineWords(ParseWords(text).value, words);
    }
    hide ParseWords, FullForm, CompressedForm, ToBytes;
    if ParseIpv6(text) == Some(ToBytes(words)) {
      AcceptedTextHasForm(text, words);
    }
    forall texts, trail | FullForm(text, words, texts, trail) ensures ParseIpv6(text) == Some(ToBytes(words)) {
      FullFormRoundTrip(text, words, texts, trail);
    }
    forall front, back, trail, from, to | CompressedForm(text, words, front, back, trail, from, to)
      ensures ParseIpv6(text) == Some(ToBytes(words))
    {
      CompressedFormRoundTrip(text, words, front, back, trail, from, to);
    }
  }

  /** A text outside the standard's grammar that the reader accepts: one colon trails. */
  lemma TrailingColonAccepted()
    ensures ParseWords("::1:") == Some([0, 0, 0, 0, 0, 0, 0, 1])
  {
    var words: seq<U16> := [0, 0, 0, 0, 0, 0, 0, 1];
    assert words[..0] == [] && words[7..] == [1] && Join([]) == "" && Join(["1"]) == "1";
    assert ReadHex("1", 0) == ReadHex([], 1) == Some(1);
    assert AllRead([], words[..0]) && AllRead(["1"], words[7..]);
    SpellingRead([], words[..0]);
    SpellingRead(["1"], words[7..]);
    assert "::1:" == Join([]) + "::" + (Join(["1"]) + ":");
    CompressedFormRoundTrip("::1:", words, [], ["1"], ":", 0, 7);
  }

  lemma ExpandedForm(
    text: string, words: seq<U16>, front: seq<string>, before: seq<U16>, back: seq<string>, behind: seq<U16>, trail: string)
    requires Spelling(front, before) && Spelling(back, behind) && (trail == "" || (trail == ":" && back != []))
    requires text == Join(front) + "::" + (Join(back) + trail)
    requires |before + behind| <= WORDS && |before| < WORDS && Expand(Reading(before + behind, |before|)) == Some(words)
    ensures CompressedForm(text, words, front, back, trail, |before|, WORDS - |behind|)
  {
    hide Spelling, Join;
    var all := before + behind;
    assert all[..|before|] == before && all[|before|..] == behind;
    assert words[..|before|] == before && words[WORDS - |behind|..] == behind;
  }

  // ---------------------------------------------------------------------------------------------
  // The parser as it runs

  method ParseComponent(text: string) returns (word: Option<U16>)
    ensures word == ReadWord(text)
  {
    if |text| == 0 || |text| > 4 {
      return None;
    }
    var parsed: nat := 0;
    for i := 0 to |text|
      invariant ReadHex(text[i..], parsed) == ReadHex(text, 0)
    {
      assert text[i..][1..] == text[i + 1..];
      var digit := HexDigit(text[i]);
      if digit.None? {
        return None;
      }
      parsed := parsed * 16 + digit.value;
    }
    WordBound(text);
    return Some(parsed);
  }

  /** Moves the last `moved` of `count` words to the end of the table, last one first. */
  method MoveBackward(table: array<U16>, count: nat, moved: nat)
    requires table.Length == WORDS && moved <= count < WORDS
    modifies table
    ensures forall k :: 0 <= k < count - moved ==> table[k] == old(table[k])
    ensures forall k :: WORDS - moved <= k < WORDS ==> table[k] == old(table[k - (WORDS - count)])
  {
    for i := 0 to moved
      invariant forall k :: 0 <= k < count - i ==> table[k] == old(table[k])
      invariant forall k :: WORDS - i <= k < WORDS ==> table[k] == old(table[k - (WORDS - count)])
    {
      table[WORDS - 1 - i] := table[count - 1 - i];
    }
  }

  /** Moves the words behind the compression to the end of the table and blanks the gap. */
  method ExpandInPlace(table: array<U16>, count: nat, compressedAt: nat)
    requires table.Length == WORDS && compressedAt <= count < WORDS
    modifies table
    ensures Some(table[..]) == Expand(Reading(old(table[..count]), compressedAt))
  {
    var moved := count - compressedAt;
    MoveBackward(table, count, moved);
    for k := compressedAt to WORDS - moved
      invariant forall j :: 0 <= j < compressedAt ==> table[j] == old(table[j])
      invariant forall j :: compressedAt <= j < k ==> table[j] == 0
      invariant forall j :: WORDS - moved <= j < WORDS ==> table[j] == old(table[j - (WORDS - count)])
    {
      table[k] := 0;
    }
    ghost var words := old(table[..count]);
    ExpandedTable(table[..], words, compressedAt);
  }

  /** A table whose parts are right is the expansion. */
  lemma ExpandedTable(table: seq<U16>, words: seq<U16>, compressedAt: nat)
    requires |table| == WORDS && compressedAt <= |words| < WORDS
    requires forall j :: 0 <= j < compressedAt ==> table[j] == words[j]
    requires forall j :: compressedAt <= j < compressedAt + WORDS - |words| ==> table[j] == 0
    requires forall j :: compressedAt + WORDS - |words| <= j < WORDS ==> table[j] == words[j - (WORDS - |words|)]
    ensures Some(table) == Expand(Reading(words, compressedAt))
  {
    var zeros := compressedAt + WORDS - |words|;
    assert table[..compressedAt] == words[..compressedAt];
    assert table[compressedAt..zeros] == Repeat<U16>(0, WORDS - |words|);
    assert table[zeros..] == words[compressedAt..];
    assert table == table[..compressedAt] + table[compressedAt..zeros] + table[zeros..];
  }

  /** Fills the table with the words from `start` on; fails where the text is no list of words. */
  method ScanWords(text: string, start: nat, table: array<U16>, compression: nat)
    returns (ok: bool, count: nat, compressedAt: nat)
    requires start <= |text| && table.Length == WORDS && compression in {0, WORDS}
    modifies table
    ensures count <= WORDS && (compressedAt == WORDS || compressedAt <= count)
    ensures ReadWords(text[start..], [], compression) == if ok then Some(Reading(table[..count], compressedAt)) else None
  {
    hide ReadWords;
    count, compressedAt := 0, compression;
    var offset := start;
    while offset < |text|
      invariant offset <= |text| && count <= WORDS && compressedAt <= WORDS && (compressedAt == WORDS || compressedAt <= count)
      invariant ReadWords(text[offset..], table[..count], compressedAt) == ReadWords(text[start..], [], compression)
      decreases |text| - offset
    {
      var delimiter := FindChar(text, ':', offset);
      ScanStep(text, offset, table[..count], compressedAt);
      if count == WORDS {
        return false, count, compressedAt;
      }
      var word := ParseComponent(text[offset..delimiter]);
      if word.None? {
        return false, count, compressedAt;
      }
      ghost var before := table[..count];
      table[count] := word.value;
      count := count + 1;
      assert table[..count] == before + [word.value];
      if delimiter == |text| {
        return true, count, compressedAt;
      }
      if delimiter + 1 < |text| && text[delimiter + 1] == ':' {
        if compressedAt != WORDS {
          return false, count, compressedAt;
        }
        compressedAt, offset := count, delimiter + 2;
      } else {
        offset := delimiter + 1;
      }
    }
    assert text[offset..] == [];
    ReadNothing(table[..count], compressedAt);
    return true, count, compressedAt;
  }

  /** Writes the table's words into the sixteen bytes of the address, most significant byte first. */
  method StoreWords(table: array<U16>) returns (bytes: seq<Byte>)
    requires table.Length == WORDS
    ensures bytes == ToBytes(table[..])
  {
    var address := new Byte[2 * WORDS](_ => 0);
    for i := 0 to WORDS
      invariant forall j :: 0 <= j < i ==> address[2 * j] == table[j] / 256 && address[2 * j + 1] == table[j] % 256
    {
      address[2 * i] := table[i] / 256;
      address[2 * i + 1] := table[i] % 256;
    }
    bytes := address[..];
    forall k | 0 <= k < 2 * WORDS ensures bytes[k] == ToBytes(table[..])[k] {
      assert k == 2 * (k / 2) || k == 2 * (k / 2) + 1;
      assert table[..][k / 2] == table[k / 2];
    }
  }

  method ParseIpv6Address(text: string) returns (bytes: Option<seq<Byte>>)
    ensures bytes == ParseIpv6(text)
  {
    if text == [] || (text[0] == ':' && (|text| < 2 || text[1] != ':')) {
      return None;
    }
    var table := new U16[WORDS](_ => 0);
    var start, compression := if text[0] == ':' then 2 else 0, if text[0] == ':' then 0 else WORDS;
    var ok, count, compressedAt := ScanWords(text, start, table, compression);
    assert text[0..] == text;
    if !ok {
      return None;
    }
    if compressedAt == WORDS {
      if count != WORDS {
        return None;
      }
      assert table[..count] == table[..];
    } else {
      if count >= WORDS {
        return None;
      }
      ExpandInPlace(table, count, compressedAt);
    }
    assert ParseWords(text) == Some(table[..]);
    var address := StoreWords(table);
    return Some(address);
  }

  /** One turn of the scan, with the text addressed by offset. */
  lemma ScanStep(text: string, offset: nat, words: seq<U16>, compressedAt: nat)
    requires offset < |text| && |words| <= WORDS && compressedAt <= WORDS && (compressedAt == WORDS || compressedAt <= |words|)
    ensures var d := FindChar(text, ':', offset);
            var word := ReadWord(text[offset..d]);
            ReadWords(text[offset..], words, compressedAt) ==
              if |words| == WORDS || word.None? then None
              else if d == |text| then Some(Reading(words + [word.value], compressedAt))
              else if d + 1 < |text| && text[d + 1] == ':'
              then if compressedAt != WORDS then None else ReadWords(text[d + 2..], words + [word.value], |words| + 1)
              else ReadWords(text[d + 1..], words + [word.value], compressedAt)
  {
    hide FindChar, ReadWord, ReadWords;
    var rest := text[offset..];
    var d := FindChar(text, ':', offset);
    if |words| == WORDS {
      NoMoreWords(rest, words, compressedAt);
    } else {
      SameDelimiter(text, offset);
      ReadWordsStep(rest, words, compressedAt, d - offset);
      assert rest[..d - offset] == text[offset..d];
      if d < |text| {
        assert rest[d - offset + 1..] == text[d + 1..];
        if d + 1 < |text| {
          assert rest[d - offset + 2..] == text[d + 2..] && rest[d - offset + 1] == text[d + 1];
        }
      }
    }
  }

  lemma SameDelimiter(text: string, offset: nat)
    requires offset <= |text|
    ensures FindChar(text, ':', offset) == offset + FindChar(text[offset..], ':', 0)
  {
    var rest := text[offset..];
    var d := FindChar(rest, ':', 0);
    assert forall j :: offset <= j < offset + d ==> text[j] == rest[j - offset];
  }

  // ---------------------------------------------------------------------------------------------
  // Bytes

  /** The bytes of the words, most significant byte first. */
  function ToBytes(words: seq<U16>): (bytes: seq<Byte>)
    ensures |bytes| == 2 * |words|
    ensures forall i :: 0 <= i < |words| ==> bytes[2 * i] == words[i] / 256 && bytes[2 * i + 1] == words[i] % 256
  {
    if words == [] then []
    else ToBytes(words[..|words| - 1]) + [words[|words| - 1] / 256, words[|words| - 1] % 256]
  }

  function ParseIpv6(text: string): (bytes: Option<seq<Byte>>)
    ensures bytes.Some? ==> |bytes.value| == 16
  {
    var words := ParseWords(text);
    if words.None? then None else Some(ToBytes(words.value))
  }
}
