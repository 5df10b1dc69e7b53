/** Checkout: the syntactic checks on the payment fields, and the grouping of
    the card number into blocks of four as it is typed. */
module Payment {
  import opened Lists

  datatype PaymentError = InvalidCardNumber | InvalidExpiry | InvalidCvv

  datatype Verdict = Accepted | Rejected(error: PaymentError)

  /** The characters matched by `\d` in a JavaScript regular expression. */
  predicate IsDigit(c: char)
  {
    '0' <= c <= '9'
  }

  /** `/^\d{2}\/\d{2}$/.test(s)`: two digits, a slash, two digits, nothing else. */
  predicate ExpiryFormatOk(s: string)
  {
    |s| == 5 && IsDigit(s[0]) && IsDigit(s[1]) && s[2] == '/' && IsDigit(s[3]) && IsDigit(s[4])
  }

  /** The three checks of `placeOrder`, in order; the first one that fails is reported. */
  function ValidatePayment(cardNumber: string, expiry: string, cvv: string): (v: Verdict)
    ensures v == Accepted <==> |cardNumber| >= 13 && ExpiryFormatOk(expiry) && |cvv| == 3
    ensures v == Rejected(InvalidCardNumber) <==> |cardNumber| < 13
    ensures v == Rejected(InvalidExpiry) <==> |cardNumber| >= 13 && !ExpiryFormatOk(expiry)
    ensures v == Rejected(InvalidCvv) <==> |cardNumber| >= 13 && ExpiryFormatOk(expiry) && |cvv| != 3
  {
    if |cardNumber| < 13 then Rejected(InvalidCardNumber)
    else if !ExpiryFormatOk(expiry) then Rejected(InvalidExpiry)
    else if |cvv| != 3 then Rejected(InvalidCvv)
    else Accepted
  }

  /** The characters matched by `\s` in a JavaScript regular expression. */
  predicate IsWhitespace(c: char)
  {
    || c == ' ' || c == '\t' || c == '\n' || c == '\r'
    || c as int == 0x0B || c as int == 0x0C || c as int == 0xA0 || c as int == 0x1680
    || 0x2000 <= c as int <= 0x200A
    || c as int == 0x2028 || c as int == 0x2029 || c as int == 0x202F || c as int == 0x205F
    || c as int == 0x3000 || c as int == 0xFEFF
  }

  predicate NoWhitespace(s: string)
  {
    forall i :: 0 <= i < |s| ==> !IsWhitespace(s[i])
  }

  /** The number of positions of `s` holding whitespace. */
  function WhitespaceCount(s: string): (n: nat)
    ensures n <= |s|
  {
    if s == [] then 0
    else (if IsWhitespace(s[0]) then 1 else 0) + WhitespaceCount(s[1..])
  }

  /** `s.replace(/\s/g, '')`: the non-whitespace characters of `s`, all of them
      and in order. A whitespace-free sub-list of `s` that is as long as `s` has
      non-whitespace positions can only be that one. */
  function StripWhitespace(s: string): (r: string)
    ensures NoWhitespace(r)
    ensures Sublist(r, s)
    ensures |r| == |s| - WhitespaceCount(s)
    ensures NoWhitespace(s) ==> r == s
  {
    if s == [] then []
    else
      var rest := StripWhitespace(s[1..]);
      if IsWhitespace(s[0]) then rest
      else
        assert ([s[0]] + rest)[1..] == rest;
        assert NoWhitespace(s) ==> s == [s[0]] + s[1..];
        [s[0]] + rest
  }

  /** `s.match(/.{1,4}/g)?.join(' ') || s` on a string without whitespace:
      blocks of four characters, the last possibly shorter, joined by single spaces. */
  function GroupByFour(s: string): string
    decreases |s|
  {
    if |s| <= 4 then s else s[..4] + " " + GroupByFour(s[4..])
  }

  /** The card-number field after each keystroke. */
  function FormatCardNumber(s: string): string
  {
    GroupByFour(StripWhitespace(s))
  }

  /** What stripping keeps of one character. */
  function Kept(c: char): string
  {
    if IsWhitespace(c) then [] else [c]
  }

  lemma StripHead(s: string)
    requires s != []
    ensures StripWhitespace(s) == Kept(s[0]) + StripWhitespace(s[1..])
  {
  }

  /** Stripping works character by character, so it distributes over concatenation. */
  lemma {:induction false} StripConcat(a: string, b: string)
    ensures StripWhitespace(a + b) == StripWhitespace(a) + StripWhitespace(b)
    decreases |a|
  {
    if a == [] {
      assert a + b == b;
    } else {
      var ab := a + b;
      assert ab[0] == a[0] && ab[1..] == a[1..] + b;
      calc {
        StripWhitespace(ab);
        { StripHead(ab); }
        Kept(a[0]) + StripWhitespace(a[1..] + b);
        { StripConcat(a[1..], b); }
        Kept(a[0]) + (StripWhitespace(a[1..]) + StripWhitespace(b));
        (Kept(a[0]) + StripWhitespace(a[1..])) + StripWhitespace(b);
        { StripHead(a); }
        StripWhitespace(a) + StripWhitespace(b);
      }
    }
  }

  /** Grouping only inserts separators: stripping them gives back the digits typed. */
  lemma {:induction false} StripUndoesGrouping(s: string)
    requires NoWhitespace(s)
    ensures StripWhitespace(GroupByFour(s)) == s
    decreases |s|
  {
    if |s| > 4 {
      StripUndoesGrouping(s[4..]);
      assert s == s[..4] + s[4..];
      StripConcat(s[..4] + " ", GroupByFour(s[4..]));
      StripConcat(s[..4], " ");
    }
  }

  /** Formatting keeps every non-whitespace character the user typed, in order. */
  lemma FormatKeepsCharacters(s: string)
    ensures StripWhitespace(FormatCardNumber(s)) == StripWhitespace(s)
  {
    StripUndoesGrouping(StripWhitespace(s));
  }

  /** Formatting an already formatted card number changes nothing, so the field
      is stable under repeated input events. */
  lemma FormatIdempotent(s: string)
    ensures FormatCardNumber(FormatCardNumber(s)) == FormatCardNumber(s)
  {
    FormatKeepsCharacters(s);
  }

  /** The grouped string has one separator per full block followed by more
      characters: every fifth character is the space and the rest are the input's. */
  lemma {:induction false} GroupByFourLayout(s: string)
    requires NoWhitespace(s) && s != []
    ensures |GroupByFour(s)| == |s| + (|s| - 1) / 4
    ensures forall i :: 0 <= i < |GroupByFour(s)| ==>
              GroupByFour(s)[i] == if i % 5 == 4 then ' ' else s[i - i / 5]
    decreases |s|
  {
    if |s| > 4 {
      var rest := s[4..];
      GroupByFourLayout(rest);
      var g := GroupByFour(s);
      var h := GroupByFour(rest);
      assert g == s[..4] + " " + h;
      forall i | 0 <= i < |g|
        ensures g[i] == if i % 5 == 4 then ' ' else s[i - i / 5]
      {
        if i >= 5 {
          assert g[i] == h[i - 5];
          assert (i - 5) % 5 == i % 5 && (i - 5) / 5 == i / 5 - 1;
        }
      }
    }
  }

  /** The card-number check runs on the formatted field, whose separators count
      towards its length: whatever the field holds before the keystroke, the
      check passes exactly when at least eleven non-whitespace characters were typed. */
  lemma FormattedCardLengthCheck(s: string)
    ensures |FormatCardNumber(s)| >= 13 <==> |StripWhitespace(s)| >= 11
  {
    var digits := StripWhitespace(s);
    if digits != [] {
      GroupByFourLayout(digits);
    }
  }
}
