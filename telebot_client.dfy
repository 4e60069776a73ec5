/** `TelegramBotClient.get_money_value` of `telebot_client_base.py`: one step of the
    conversion dialogue. The text is uppercased; `END` closes the dialogue; otherwise
    the text must be a run of digits followed by `THB`, `RUB` or nothing (the regular
    expression `^(?P<value>\d+)(?P<name>(THB|RUB|))$`, whose `$` also matches before
    one final line break). The amount is converted at `rate`, the rate the previous
    step of the dialogue stored. */
module TelebotClient {
  import opened PyCore
  import opened Text
  import opened Numbers
  import opened Units

  /** The longest run of digits the text starts with. */
  function DigitPrefix(s: string): (d: string)
    ensures |d| <= |s| && d == s[..|d|] && AllDigits(d)
    ensures |d| < |s| ==> !IsDigit(s[|d|])
  {
    if s == [] || !IsDigit(s[0]) then []
    else
      var tail := DigitPrefix(s[1..]);
      assert s[..1 + |tail|] == [s[0]] + s[1..][..|tail|];
      [s[0]] + tail
  }

  /** A run of digits followed by anything that does not start with a digit is the
      digit prefix. */
  lemma {:induction false} DigitPrefixOf(d: string, rest: string)
    requires AllDigits(d) && (rest == [] || !IsDigit(rest[0]))
    ensures DigitPrefix(d + rest) == d
  {
    if d != [] {
      assert (d + rest)[1..] == d[1..] + rest;
      DigitPrefixOf(d[1..], rest);
    }
  }

  /** The currency names the expression accepts after the digits. */
  predicate IsCurrencyName(name: string) {
    name == "THB" || name == "RUB" || name == ""
  }

  /** `text` is matched by the amount expression with these two groups. */
  predicate MatchesAmount(text: string, digits: string, name: string) {
    digits != [] && AllDigits(digits) && IsCurrencyName(name)
    && (text == digits + name || text == digits + name + "\n")
  }

  /** The text without one final line break, if it ends in one. */
  function DropFinalNewline(s: string): (r: string)
    ensures s == r || s == r + "\n"
  {
    if s != [] && s[|s| - 1] == '\n' then
      assert s == s[..|s| - 1] + "\n";
      s[..|s| - 1]
    else s
  }

  /** The two groups of the amount expression, or `None` when it finds no match. */
  function ParseAmount(text: string): (r: Option<(string, string)>)
    ensures r.Some? ==> MatchesAmount(text, r.value.0, r.value.1)
  {
    var digits := DigitPrefix(text);
    var rest := text[|digits|..];
    var name := DropFinalNewline(rest);
    assert text == digits + rest;
    assert rest == name + "\n" ==> text == digits + name + "\n";
    if digits != [] && IsCurrencyName(name) then Some((digits, name)) else None
  }

  /** The expression matches exactly when the parser finds its groups. */
  lemma {:induction false} AmountAccepted(text: string)
    ensures ParseAmount(text).Some? <==> exists digits, name :: MatchesAmount(text, digits, name)
  {
    if exists digits, name :: MatchesAmount(text, digits, name) {
      var digits, name :| MatchesAmount(text, digits, name);
      ParseAmountComplete(text, digits, name);
    }
  }

  /** The parser finds exactly the groups of every match. */
  lemma ParseAmountComplete(text: string, digits: string, name: string)
    requires MatchesAmount(text, digits, name)
    ensures ParseAmount(text) == Some((digits, name))
  {
    var rest := if text == digits + name then name else name + "\n";
    assert text == digits + rest;
    DigitPrefixOf(digits, rest);
    assert text[|digits|..] == rest;
  }

  /** What the handler asks the bot to do next: forget the dialogue, or wait for
      another amount. */
  datatype Next = ClearHandlers | AwaitAmount

  /** The reply sent and the handler registered after it. */
  datatype Step = Step(reply: string, next: Next)

  const DoneReply: string := "Exchange operation have been done"
  const IncorrectReply: string := "Incorrect Input"

  /** The reply to an amount in roubles. */
  function RubReply(amount: nat, thb: Decimal): (r: string)
    ensures Split(r, '\n') == ["I will convert RUB to THB", NatToString(amount) + "RUB = " + ShowDecimal(thb) + "THB"]
  {
    var amounts := NatToString(amount) + "RUB = " + ShowDecimal(thb) + "THB";
    AmountsLine(NatToString(amount), "RUB = ", ShowDecimal(thb), "THB");
    LineThen("I will convert RUB to THB", amounts);
    "I will convert RUB to THB" + "\n" + amounts
  }

  /** The reply to an amount in baht. */
  function ThbReply(amount: nat, rub: Decimal): (r: string)
    ensures Split(r, '\n') == ["I will convert THB to RUB", NatToString(amount) + "THB = " + ShowDecimal(rub) + "RUB"]
  {
    var amounts := NatToString(amount) + "THB = " + ShowDecimal(rub) + "RUB";
    AmountsLine(NatToString(amount), "THB = ", ShowDecimal(rub), "RUB");
    LineThen("I will convert THB to RUB", amounts);
    "I will convert THB to RUB" + "\n" + amounts
  }

  /** The amounts line of a reply holds no line break. */
  lemma AmountsLine(amount: string, from: string, converted: string, to: string)
    requires AllNumeral(amount) && AllNumeral(converted)
    requires '\n' !in from && '\n' !in to
    ensures '\n' !in amount + from + converted + to
  {
    NumeralHasNoNewline(amount);
    NumeralHasNoNewline(converted);
  }

  /** `get_money_value(message)` with `message.text == text`. */
  function GetMoneyValue(text: string, rate: real): (r: Result<Step>)
    ensures Upper(text) == "END" ==> r == Ok(Step(DoneReply, ClearHandlers))
    ensures r.Ok? && r.value.next == ClearHandlers ==> Upper(text) == "END"
    ensures r.Raise? ==> r.exc == ZeroDivisionError && rate == 0.0
    ensures Upper(text) != "END" && ParseAmount(Upper(text)).None? ==> r == Ok(Step(IncorrectReply, AwaitAmount))
    ensures Upper(text) != "END" && ParseAmount(Upper(text)).Some? ==>
              var (digits, name) := ParseAmount(Upper(text)).value;
              (name == "THB" ==> r == Ok(Step(ThbReply(DigitsValue(digits), BuyRubKnowingThb(DigitsValue(digits) as real, rate)), AwaitAmount)))
              && (name != "THB" && rate == 0.0 ==> r == Raise(ZeroDivisionError))
              && (name != "THB" && rate != 0.0 ==>
                    r == Ok(Step(RubReply(DigitsValue(digits), BuyRubKnowingRub(DigitsValue(digits) as real, rate).value), AwaitAmount)))
  {
    var upper := Upper(text);
    if upper == "END" then Ok(Step(DoneReply, ClearHandlers))
    else
      match ParseAmount(upper)
      case None => Ok(Step(IncorrectReply, AwaitAmount))
      case Some((digits, name)) =>
        var amount := DigitsValue(digits);
        if name == "RUB" || name == "" then
          var thb :- BuyRubKnowingRub(amount as real, rate);
          Ok(Step(RubReply(amount, thb), AwaitAmount))
        else
          Ok(Step(ThbReply(amount, BuyRubKnowingThb(amount as real, rate)), AwaitAmount))
  }

  /** Text that is not `END` in any case and that the amount expression does not
      match is refused, and the handler waits for another amount. */
  lemma IncorrectInput(text: string, rate: real)
    requires Upper(text) != "END"
    requires forall digits, name :: !MatchesAmount(Upper(text), digits, name)
    ensures GetMoneyValue(text, rate) == Ok(Step(IncorrectReply, AwaitAmount))
  {
    AmountAccepted(Upper(text));
  }

  /** An amount in roubles, or with no currency, is converted to baht at `rate`. */
  lemma RubAmount(text: string, rate: real, digits: string, name: string)
    requires Upper(text) != "END" && MatchesAmount(Upper(text), digits, name) && name != "THB"
    requires rate != 0.0
    ensures GetMoneyValue(text, rate).Ok?
    ensures GetMoneyValue(text, rate).value
            == Step(RubReply(DigitsValue(digits), BuyRubKnowingRub(DigitsValue(digits) as real, rate).value), AwaitAmount)
  {
    ParseAmountComplete(Upper(text), digits, name);
  }

  /** An amount in baht is converted to roubles at `rate`. */
  lemma ThbAmount(text: string, rate: real, digits: string)
    requires Upper(text) != "END" && MatchesAmount(Upper(text), digits, "THB")
    ensures GetMoneyValue(text, rate)
            == Ok(Step(ThbReply(DigitsValue(digits), BuyRubKnowingThb(DigitsValue(digits) as real, rate)), AwaitAmount))
  {
    ParseAmountComplete(Upper(text), digits, "THB");
  }

  /** `"100thb"` at 2.5 baht per rouble gives 250 roubles. */
  lemma ThbAmountFixture()
    ensures GetMoneyValue("100thb", 2.5) == Ok(Step("I will convert THB to RUB\n100THB = 250.0RUB", AwaitAmount))
  {
    UpperFixture();
    MatchFixture();
    ThbAmount("100thb", 2.5, "100");
    HundredFixture();
    RateFixture();
    ReplyFixture();
  }

  /** The fixture text uppercased. */
  lemma UpperFixture()
    ensures Upper("100thb") == "100THB"
  {
  }

  /** The fixture text is an amount in baht. */
  lemma MatchFixture()
    ensures MatchesAmount("100THB", "100", "THB")
  {
    assert "100" + "THB" == "100THB";
  }

  /** The fixture amount read back. */
  lemma HundredFixture()
    ensures DigitsValue("100") == 100
  {
    assert "100"[..2] == "10" && "10"[..1] == "1";
  }

  /** 100 baht at 2.5 is exactly 250 roubles. */
  lemma RateFixture()
    ensures BuyRubKnowingThb(100.0, 2.5) == Decimal(25000, 2)
  {
    RoundExact(25000);
  }

  /** The fixture reply. */
  lemma ReplyFixture()
    ensures ThbReply(100, Decimal(25000, 2)) == "I will convert THB to RUB\n100THB = 250.0RUB"
  {
    HundredText();
    ShownAmount();
  }

  /** 250.00 prints as "250.0". */
  lemma ShownAmount()
    ensures ShowDecimal(Decimal(25000, 2)) == "250.0"
  {
    FixtureNormal();
    assert NatToString(250) == "250" by {
      assert NatToString(2) == "2" && NatToString(25) == "25";
    }
    assert "" + "250" + ".0" == "250.0";
  }

  /** The fixture amount as text. */
  lemma HundredText()
    ensures NatToString(100) == "100"
  {
    assert NatToString(1) == "1" && NatToString(10) == "10";
  }

  /** 250.00 loses its trailing zeros. */
  lemma FixtureNormal()
    ensures Normalize(Decimal(25000, 2)) == Decimal(250, 0)
  {
    assert Normalize(Decimal(2500, 1)) == Decimal(250, 0);
  }
}
