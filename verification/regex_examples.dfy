/** Whole receipts through `parse_receipt` of parsers/regex_parser.py:
    what a blank text gives, and how small texts that differ from the
    expected layout in one respect come out. */
module RegexExamples {
  import opened Wrappers
  import opened Text
  import opened Decimal
  import opened Patterns
  import opened PatternShapes
  import opened Receipt
  import opened RegexParser
  import opened RegexProperties
  import opened RegexItems

  /** A label holding a character that the text lacks occurs nowhere in
      it. */
  lemma LabelAbsent(s: string, l: string, k: nat)
    requires k < |l| && l[k] !in s
    ensures forall i: nat :: !LabelAt(s, i, l)
  {
    forall i: nat ensures !LabelAt(s, i, l) {
      if i + |l| <= |s| {
        assert s[i..i + |l|][k] == s[i + k];
      }
    }
  }

  /** Every amount pattern needs a decimal point. */
  lemma AmountShapePoint(s: string, i: nat, d: nat, e: nat)
    requires AmountShape(s, i, d, e)
    ensures '.' in s
  {
    assert s[SkipDigits(s, d + 1)] == '.';
  }

  /** An amount field is only ever found in a text with a decimal point:
      `$45` is not an amount. */
  lemma FindAmountNeedsPoint(text: string, l: string)
    requires FindAmount(text, LabelledAmount(l)).Some?
    ensures '.' in text
  {
    FindAmountSound(text, l);
    var v := FindAmount(text, LabelledAmount(l)).value;
    var i: nat, d: nat, e: nat :| FirstAmountShape(text, i, l, d, e) && v == ReadAmount(text, Group(d + 1, e));
    AmountShapePoint(text, i + |l|, d, e);
  }

  /** The exact value of `whole.frac` found as a group. */
  lemma ReadAmountIs(s: string, g: Group, whole: string, frac: string)
    requires InBounds(s, g) && DecimalAt(s, g.start, g.end)
    requires |whole| > 0 && |frac| > 0 && AllDigits(whole) && AllDigits(frac)
    requires s[g.start..g.end] == whole + "." + frac
    ensures ReadAmount(s, g) == DecimalValue(whole, frac)
  {
    ParseDecimalOfParts(whole, frac);
  }

  // A blank receipt, regex_parser.py:10-21.

  /** A label that starts with a character other than white space does
      not occur in white space. */
  lemma LabelNotInSpace(s: string, i: nat, l: string)
    requires AllSpace(s) && |l| > 0 && !IsSpace(l[0])
    ensures !LabelAt(s, i, l)
  {
    if i + |l| <= |s| {
      assert SpaceAt(s, i);
      assert s[i..i + |l|][0] == s[i];
    }
  }

  /** The lines of a blank receipt yield no item. */
  lemma BlankItems(text: string)
    requires AllSpace(text)
    ensures ItemsOf(ReceiptLines(text)) == []
  {
    assert Strip(text) == [];
    assert ReceiptLines(text) == [""];
    if LineItem("").Some? {
      LineItemDash("");
    }
  }

  /** A text that is empty or all white space gives the empty record:
      every field `None`, no items, and still the `regex` tag. */
  lemma BlankReceipt(text: string)
    requires AllSpace(text)
    ensures ParseReceipt(text) == Record(None, None, None, [], None, None, None, "regex")
  {
    MerchantIff(text);
    forall i: nat, k: nat, e: nat ensures !TextShape(text, i, "Date:", k, e) && !TextShape(text, i, "Invoice #:", k, e) {
      LabelNotInSpace(text, i, "Date:");
      LabelNotInSpace(text, i, "Invoice #:");
    }
    FindTextNone(text, "Date:");
    FindTextNone(text, "Invoice #:");
    forall i: nat, d: nat, e: nat
      ensures !LabelledAmountShape(text, i, "Subtotal:", d, e) && !LabelledAmountShape(text, i, "TOTAL:", d, e)
    {
      LabelNotInSpace(text, i, "Subtotal:");
      LabelNotInSpace(text, i, "TOTAL:");
    }
    FindAmountNone(text, "Subtotal:");
    FindAmountNone(text, "TOTAL:");
    forall i: nat, c: nat, d: nat, e: nat ensures !TaxShape(text, i, c, d, e) {
      LabelNotInSpace(text, i, "Tax");
    }
    FindTaxNone(text);
    BlankItems(text);
  }

  // Small texts.

  /** The labels are matched case-sensitively: `Total:` is not `TOTAL:`. */
  lemma LowerCaseTotal()
    ensures FindAmount("Total: $71.81", LabelledAmount("TOTAL:")) == None
  {
    LabelAbsent("Total: $71.81", "TOTAL:", 1);
    FindAmountNone("Total: $71.81", "TOTAL:");
  }

  /** A whole-dollar amount without a decimal point is not read. */
  lemma WholeDollarTotal()
    ensures FindAmount("TOTAL: $45", LabelledAmount("TOTAL:")) == None
  {
    if FindAmount("TOTAL: $45", LabelledAmount("TOTAL:")).Some? {
      FindAmountNeedsPoint("TOTAL: $45", "TOTAL:");
    }
  }

  /** `71.81` read exactly. */
  lemma Value7181()
    ensures AllDigits("71") && AllDigits("81") && DecimalValue("71", "81") == 71.81
  {
    assert "71"[..1] == "7" && "81"[..1] == "8" && "7"[..0] == [] && "8"[..0] == [];
    assert DigitsValue("7") == 7 && DigitsValue("8") == 8;
    assert DigitsValue("71") == 71 && DigitsValue("81") == 81;
    assert Pow10(2) == 100;
  }

  /** In `TOTAL: $71.81` the label starts the first amount shape. */
  lemma ExactTotalShape()
    ensures FirstAmountShape("TOTAL: $71.81", 0, "TOTAL:", 7, 13)
  {
    var s := "TOTAL: $71.81";
    assert LabelAt(s, 0, "TOTAL:");
    assert SpaceAt(s, 6) && !DigitAt(s, 10) && DigitAt(s, 8) && DigitAt(s, 9);
    assert DigitAt(s, 11) && DigitAt(s, 12);
    SkipDigitsStops(s, 8, 10);
    assert DecimalAt(s, 8, 13);
  }

  /** The group of `TOTAL: $71.81` reads as 71.81. */
  lemma ExactTotalValue()
    requires DecimalAt("TOTAL: $71.81", 8, 13)
    ensures ReadAmount("TOTAL: $71.81", Group(8, 13)) == 71.81
  {
    assert "TOTAL: $71.81"[8..13] == "71" + "." + "81";
    Value7181();
    ReadAmountIs("TOTAL: $71.81", Group(8, 13), "71", "81");
  }

  /** `TOTAL: $71.81` on its own gives the total 71.81, exactly. */
  lemma ExactTotal()
    ensures FindAmount("TOTAL: $71.81", LabelledAmount("TOTAL:")) == Some(71.81)
  {
    ExactTotalShape();
    FindAmountFirst("TOTAL: $71.81", "TOTAL:", 0, 7, 13);
    ExactTotalValue();
  }

  /** A subtotal line above the total line. */
  const SubtotalFirst := "SUB" + "TOTAL: $10.50\nTOTAL: $12.00"

  /** A label that starts `r` starts `p + r` right after `p`. */
  lemma LabelAfter(p: string, r: string, l: string)
    requires LabelAt(r, 0, l)
    ensures LabelAt(p + r, |p|, l)
  {
    assert (p + r)[|p|..|p| + |l|] == r[..|l|];
  }

  /** `TOTAL:` also occurs inside `SUBTOTAL:`, at position 3, and the
      amount after it is the first labelled amount shape of the text. */
  lemma SubtotalFirstShape()
    ensures FirstAmountShape(SubtotalFirst, 3, "TOTAL:", 10, 16)
  {
    var s := SubtotalFirst;
    LabelAfter("SUB", "TOTAL: $10.50\nTOTAL: $12.00", "TOTAL:");
    assert SpaceAt(s, 9) && DigitAt(s, 11) && DigitAt(s, 12) && !DigitAt(s, 13);
    assert DigitAt(s, 14) && DigitAt(s, 15) && !DigitAt(s, 16);
    SkipDigitsStops(s, 11, 13);
    assert DecimalAt(s, 11, 16);
    forall j: nat, d: nat, e: nat | j < 3 ensures !LabelledAmountShape(s, j, "TOTAL:", d, e) {
      assert s[j..j + 6][0] == s[j] != 'T';
    }
  }

  /** The group of that shape reads as 10.50. */
  lemma SubtotalFirstValue()
    requires DecimalAt(SubtotalFirst, 11, 16)
    ensures ReadAmount(SubtotalFirst, Group(11, 16)) == 10.5
  {
    assert SubtotalFirst[11..16] == "10" + "." + "50";
    assert "10"[..1] == "1" && "50"[..1] == "5" && "1"[..0] == [] && "5"[..0] == [];
    assert DigitsValue("10") == 10 && DigitsValue("50") == 50;
    assert Pow10(2) == 100;
    ReadAmountIs(SubtotalFirst, Group(11, 16), "10", "50");
  }

  /** `TOTAL:\s*\$` has no word boundary, so `SUBTOTAL: $10.50` above
      `TOTAL: $12.00` gives the total 10.50: the first labelled amount
      in the text wins. */
  lemma SubtotalReadAsTotal()
    ensures FindAmount(SubtotalFirst, LabelledAmount("TOTAL:")) == Some(10.5)
  {
    SubtotalFirstShape();
    FindAmountFirst(SubtotalFirst, "TOTAL:", 3, 10, 16);
    SubtotalFirstValue();
  }

  /** In `Date:\nInvoice #: X` the white space after the label ends at
      the start of the second line, which runs to the end. */
  lemma DateCrossesLineShape()
    ensures SkipSpaces("Date:\nInvoice #: X", 5) == 6
    ensures LineEnd("Date:\nInvoice #: X", 6) == 18
  {
    var s := "Date:\nInvoice #: X";
    assert SpaceAt(s, 5) && !SpaceAt(s, 6);
    SkipSpacesStops(s, 5, 6);
    forall k | 6 <= k < 18 ensures !BreakAt(s, k) {
    }
    LineEndAt(s, 6, 18);
  }

  /** `\s*` crosses line breaks: with nothing after `Date:` on its line,
      the date is the whole next line. */
  lemma DateCrossesLine()
    ensures FindText("Date:\nInvoice #: X", "Date:") == Some("Invoice #: X")
  {
    var s := "Date:\nInvoice #: X";
    DateCrossesLineShape();
    assert LabelAt(s, 0, "Date:") && !BreakAt(s, 6);
    FindTextFirst(s, "Date:", 0, 6);
    DateCrossesLineValue();
  }

  /** The next line of `Date:\nInvoice #: X`, stripped. */
  lemma DateCrossesLineValue()
    ensures Strip("Date:\nInvoice #: X"[6..18]) == "Invoice #: X"
  {
    assert "Date:\nInvoice #: X"[6..18] == "Invoice #: X";
    StripOfTrimmed("Invoice #: X");
  }
}
