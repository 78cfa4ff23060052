/**
 * Which AllowedIPs items the source filter accepts and what they mean, with decimal numbers printed by
 * division rather than read.
 */
module AllowedIpText {
  import opened TunnelProtocol
  import opened TextScan
  import opened Ipv6Text
  import opened SourceFilter

  // ---------------------------------------------------------------------------------------------
  // Decimal numbers

  const DIGITS: string := "0123456789"

  function Power10(n: nat): nat {
    if n == 0 then 1 else 10 * Power10(n - 1)
  }

  /** The last `width` decimal digits of a number. */
  function PrintDecimal(value: nat, width: nat): string {
    if width == 0 then "" else PrintDecimal(value / 10, width - 1) + [DIGITS[value % 10]]
  }

  /** `text` prints the number, leading zeros allowed. */
  predicate Decimal(text: string, value: nat) {
    text != "" && value < Power10(|text|) && text == PrintDecimal(value, |text|)
  }

  lemma DigitTable(c: char, value: nat)
    requires value < 10
    ensures IsDigit(c) && DigitValue(c) == value <==> c == DIGITS[value]
  {
    assert DIGITS[0] == '0' && DIGITS[1] == '1' && DIGITS[2] == '2' && DIGITS[3] == '3' && DIGITS[4] == '4';
    assert DIGITS[5] == '5' && DIGITS[6] == '6' && DIGITS[7] == '7' && DIGITS[8] == '8' && DIGITS[9] == '9';
  }

  /** Reading one more digit at the end; the limit is as good at the end as on the way. */
  lemma {:induction false} DigitsSnoc(text: string, c: char, value: nat, limit: nat)
    requires value <= limit
    ensures var front := ParseDigits(text, value, limit);
            ParseDigits(text + [c], value, limit) ==
            if front.None? || !IsDigit(c) || front.value * 10 + DigitValue(c) > limit then None
            else Some(front.value * 10 + DigitValue(c))
    decreases |text|
  {
    var all := text + [c];
    if text == [] {
      assert all[1..] == [];
    } else if IsDigit(text[0]) && value * 10 + DigitValue(text[0]) <= limit {
      assert all[1..] == text[1..] + [c];
      DigitsSnoc(text[1..], c, value * 10 + DigitValue(text[0]), limit);
    }
  }

  lemma {:induction false} DigitsExact(text: string, value: nat, limit: nat)
    ensures ParseDigits(text, 0, limit) == Some(value) <==>
            value <= limit && value < Power10(|text|) && text == PrintDecimal(value, |text|)
    decreases |text|
  {
    if text != [] {
      var front, c := text[..|text| - 1], text[|text| - 1];
      assert text == front + [c];
      DigitsSnoc(front, c, 0, limit);
      DigitsExact(front, value / 10, limit);
      DigitTable(c, value % 10);
      var parsed := ParseDigits(front, 0, limit);
      if parsed.Some? && IsDigit(c) && parsed.value * 10 + DigitValue(c) == value {
        assert value / 10 == parsed.value && value % 10 == DigitValue(c);
      }
      var printed := PrintDecimal(value / 10, |text| - 1);
      if text == PrintDecimal(value, |text|) {
        assert front == printed && c == DIGITS[value % 10];
      }
    }
  }

  /** The reader accepts exactly the printings of numbers within the limit. */
  lemma DecimalExact(text: string, value: nat, limit: nat)
    ensures ParseDecimal(text, limit) == Some(value) <==> value <= limit && Decimal(text, value)
  {
    DigitsExact(text, value, limit);
  }

  lemma {:induction false} PrintedDigits(value: nat, width: nat)
    ensures |PrintDecimal(value, width)| == width
    ensures forall i :: 0 <= i < width ==> IsDigit(PrintDecimal(value, width)[i])
  {
    if width > 0 {
      PrintedDigits(value / 10, width - 1);
      DigitTable(DIGITS[value % 10], value % 10);
    }
  }

  // ---------------------------------------------------------------------------------------------
  // Dotted addresses

  /** Numbers up to 255 between dots, one per byte. */
  ghost predicate Dotted(text: string, bytes: seq<Byte>)
    decreases |bytes|
  {
    bytes != [] &&
    if |bytes| == 1 then Decimal(text, bytes[0])
    else exists first, rest :: text == first + "." + rest && Decimal(first, bytes[0]) && Dotted(rest, bytes[1..])
  }

  lemma DecimalHas(text: string, value: nat, c: char)
    requires Decimal(text, value) && !IsDigit(c)
    ensures c !in text
  {
    PrintedDigits(value, |text|);
  }

  lemma {:induction false} OctetsExact(text: string, bytes: seq<Byte>)
    requires bytes != []
    ensures ParseOctets(text, |bytes|) == Some(bytes) <==> Dotted(text, bytes)
    decreases |bytes|
  {
    hide Decimal, ParseDecimal;
    if |bytes| == 1 {
      assert bytes == [bytes[0]];
      OneOctet(text, bytes[0]);
    } else {
      if Dotted(text, bytes) {
        var first, rest := DottedParts(text, bytes);
        OctetsExact(rest, bytes[1..]);
        ReadsDotted(first, rest, bytes);
      }
      if ParseOctets(text, |bytes|) == Some(bytes) {
        var first, rest := SplitsDotted(text, bytes);
        OctetsExact(rest, bytes[1..]);
      }
    }
  }

  lemma DottedParts(text: string, bytes: seq<Byte>) returns (first: string, rest: string)
    requires |bytes| > 1 && Dotted(text, bytes)
    ensures text == first + "." + rest && Decimal(first, bytes[0]) && Dotted(rest, bytes[1..])
  {
    first, rest :| text == first + "." + rest && Decimal(first, bytes[0]) && Dotted(rest, bytes[1..]);
  }

  lemma ReadsDotted(first: string, rest: string, bytes: seq<Byte>)
    requires |bytes| > 1 && Decimal(first, bytes[0]) && ParseOctets(rest, |bytes| - 1) == Some(bytes[1..])
    ensures ParseOctets(first + "." + rest, |bytes|) == Some(bytes)
  {
    var text := first + "." + rest;
    DecimalHas(first, bytes[0], '.');
    FindCharIn(first, '.', rest);
    assert text[..|first|] == first && text[|first| + 1..] == rest;
    DecimalExact(first, bytes[0], 255);
    assert [bytes[0]] + bytes[1..] == bytes;
    hide Decimal, ParseDecimal, FindChar;
  }

  lemma SplitsDotted(text: string, bytes: seq<Byte>) returns (first: string, rest: string)
    requires |bytes| > 1 && ParseOctets(text, |bytes|) == Some(bytes)
    ensures text == first + "." + rest && Decimal(first, bytes[0]) && ParseOctets(rest, |bytes| - 1) == Some(bytes[1..])
  {
    hide ParseDecimal, FindChar, Decimal;
    var d := FindChar(text, '.', 0);
    first, rest := text[..d], text[d + 1..];
    DecimalExact(first, bytes[0], 255);
    assert ParseOctets(rest, |bytes| - 1).value == bytes[1..];
  }

  lemma OneOctet(text: string, value: Byte)
    ensures ParseOctets(text, 1) == Some([value]) <==> Decimal(text, value)
  {
    var d := FindChar(text, '.', 0);
    DecimalExact(text[..d], value, 255);
    if Decimal(text, value) {
      DecimalHas(text, value, '.');
      FindCharIn(text, '.', "");
    }
    assert text[..|text|] == text;
    if ParseOctets(text, 1) == Some([value]) {
      assert ParseDecimal(text[..d], 255).value == [value][0];
    }
  }

  lemma {:induction false} DottedHasNoColon(text: string, bytes: seq<Byte>)
    requires Dotted(text, bytes)
    ensures ':' !in text
    decreases |bytes|
  {
    if |bytes| == 1 {
      DecimalHas(text, bytes[0], ':');
    } else {
      var first, rest := DottedParts(text, bytes);
      DecimalHas(first, bytes[0], ':');
      DottedHasNoColon(rest, bytes[1..]);
    }
  }

  // ---------------------------------------------------------------------------------------------
  // Items

  /** An IPv6 address in full or compressed form. */
  ghost predicate Ipv6Form(text: string, address: seq<Byte>) {
    exists words :: address == ToBytes(words) &&
      ((exists texts, trail :: FullForm(text, words, texts, trail)) ||
       (exists front, back, trail, from, to :: CompressedForm(text, words, front, back, trail, from, to)))
  }

  lemma Ipv6FormExact(text: string, address: seq<Byte>)
    ensures ParseIpv6(text) == Some(address) <==> Ipv6Form(text, address)
  {
    hide ParseWords, FullForm, CompressedForm, ToBytes;
    if ParseIpv6(text) == Some(address) {
      AcceptsExactly(text, ParseWords(text).value);
    }
    forall words | address == ToBytes(words) ensures ParseIpv6(text) == Some(address) <==>
      (exists texts, trail :: FullForm(text, words, texts, trail)) ||
      (exists front, back, trail, from, to :: CompressedForm(text, words, front, back, trail, from, to))
    {
      AcceptsExactly(text, words);
    }
  }

  lemma Ipv6FormHasColon(text: string, address: seq<Byte>)
    requires Ipv6Form(text, address)
    ensures ':' in text
  {
    var words :| address == ToBytes(words) &&
      ((exists texts, trail :: FullForm(text, words, texts, trail)) ||
       (exists front, back, trail, from, to :: CompressedForm(text, words, front, back, trail, from, to)));
    hide ToBytes, Spelling, Join;
    if texts, trail :| FullForm(text, words, texts, trail) {
      JoinHasColon(texts);
    } else {
      var front, back, trail, from, to :| CompressedForm(text, words, front, back, trail, from, to);
      assert text[|Join(front)|] == ':';
    }
  }

  lemma JoinHasColon(texts: seq<string>)
    requires |texts| >= 2
    ensures ':' in Join(texts)
  {
    assert Join(texts)[|texts[0]|] == ':';
  }

  /** An address and a prefix length, each trimmed of blanks, around the last slash. */
  ghost predicate ItemForm(text: string, allowed: AllowedIp) {
    exists address, prefix ::
      text == address + "/" + prefix && '/' !in prefix && address != "" && prefix != "" &&
      Decimal(Trim(prefix), allowed.prefix) &&
      ((Ipv6Form(Trim(address), allowed.address) && allowed.prefix <= 128) ||
       (|allowed.address| == 4 && Dotted(Trim(address), allowed.address) && allowed.prefix <= 32))
  }

  /** The filter accepts exactly these items, with this meaning. */
  lemma ItemExact(text: string, allowed: AllowedIp)
    ensures ParseAllowedIp(text) == Some(allowed) <==> ItemForm(text, allowed)
  {
    hide ParseAllowedIp, ItemForm;
    if ParseAllowedIp(text) == Some(allowed) {
      AcceptedItem(text, allowed);
    }
    if ItemForm(text, allowed) {
      FormedItem(text, allowed);
    }
  }

  lemma AcceptedItem(text: string, allowed: AllowedIp)
    requires ParseAllowedIp(text) == Some(allowed)
    ensures ItemForm(text, allowed)
  {
    hide Ipv6Form, Dotted, Decimal, Trim, ParseIpv6, ParseOctets, ParseDecimal, FindLastChar;
    var slash := FindLastChar(text, '/', |text|).value;
    var address, prefix := text[..slash], text[slash + 1..];
    assert text == address + "/" + prefix && '/' !in prefix;
    PartsExact(Trim(address), Trim(prefix), allowed);
  }

  lemma FormedItem(text: string, allowed: AllowedIp)
    requires ItemForm(text, allowed)
    ensures ParseAllowedIp(text) == Some(allowed)
  {
    var address, prefix :|
      text == address + "/" + prefix && '/' !in prefix && address != "" && prefix != "" &&
      Decimal(Trim(prefix), allowed.prefix) &&
      ((Ipv6Form(Trim(address), allowed.address) && allowed.prefix <= 128) ||
       (|allowed.address| == 4 && Dotted(Trim(address), allowed.address) && allowed.prefix <= 32));
    hide Ipv6Form, Dotted, Decimal, Trim, ParseIpv6, ParseOctets, ParseDecimal, FindLastChar, ItemForm;
    FindLastCharIn(address, '/', prefix);
    assert text[..|address|] == address && text[|address| + 1..] == prefix;
    PartsExact(Trim(address), Trim(prefix), allowed);
  }

  lemma PartsExact(address: string, prefix: string, allowed: AllowedIp)
    ensures var ipv6 := ':' in address;
            (ParseDecimal(prefix, if ipv6 then 128 else 32) == Some(allowed.prefix) &&
             (if ipv6 then ParseIpv6(address) else ParseOctets(address, 4)) == Some(allowed.address)) <==>
            Decimal(prefix, allowed.prefix) &&
            ((Ipv6Form(address, allowed.address) && allowed.prefix <= 128) ||
             (|allowed.address| == 4 && Dotted(address, allowed.address) && allowed.prefix <= 32))
  {
    hide Decimal, Ipv6Form, Dotted, ParseIpv6, ParseOctets, ParseDecimal;
    DecimalExact(prefix, allowed.prefix, 128);
    DecimalExact(prefix, allowed.prefix, 32);
    Ipv6FormExact(address, allowed.address);
    if |allowed.address| == 4 {
      OctetsExact(address, allowed.address);
      if Dotted(address, allowed.address) {
        DottedHasNoColon(address, allowed.address);
      }
    }
    if Ipv6Form(address, allowed.address) {
      Ipv6FormHasColon(address, allowed.address);
    }
  }
}
