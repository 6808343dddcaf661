/** The report the `onclose` handler of src/hooks/useWebSocket.ts logs when
    the connection closes: a fixed sentence, then, for any code but a normal
    closure, the code and reason and at most one hint for the three codes the
    client knows. */
module CloseReport {
  import opened JsText

  const NormalClosure: nat := 1000
  const ProtocolError: nat := 1002
  const AbnormalClosure: nat := 1006
  const PolicyViolation: nat := 1008

  const Base := "Disconnected from server"
  const AbnormalHint := " - Connection closed abnormally. Check if server is running."
  const ProtocolHint := " - Protocol error. Check server logs."
  const PolicyHint := " - Policy violation. Check authentication."

  /** `reason || 'Unknown'`: an empty reason reads as `Unknown`. */
  function ReasonText(reason: string): (r: string)
    ensures r != []
    ensures reason == [] ==> r == "Unknown"
    ensures reason != [] ==> r == reason
  {
    if reason == [] then "Unknown" else reason
  }

  /** The part after the code: `, Reason: r)`. */
  function ReasonPart(reason: string): string {
    ", Reason: " + ReasonText(reason) + ")"
  }

  /** The bracketed part, with the code printed in decimal. */
  function Detail(code: nat, reason: string): string {
    " (Code: " + NatToString(code) + ReasonPart(reason)
  }

  /** The hint for the three codes the client knows, and nothing for the rest. */
  function Hint(code: nat): string {
    if code == AbnormalClosure then AbnormalHint
    else if code == ProtocolError then ProtocolHint
    else if code == PolicyViolation then PolicyHint
    else ""
  }

  /** The whole report for a close with the given code and reason. */
  function CloseText(code: nat, reason: string): (r: string)
    ensures StartsWith(r, Base)
    ensures r == Base <==> code == NormalClosure
  {
    if code == NormalClosure then Base else Base + Detail(code, reason) + Hint(code)
  }

  /** The handler builds the report by appending to it piece by piece. */
  method BuildCloseMessage(code: nat, reason: string) returns (closeMessage: string)
    ensures closeMessage == CloseText(code, reason)
  {
    closeMessage := Base;
    if code != NormalClosure {
      closeMessage := closeMessage + Detail(code, reason);
      if code == AbnormalClosure {
        closeMessage := closeMessage + AbnormalHint;
      } else if code == ProtocolError {
        closeMessage := closeMessage + ProtocolHint;
      } else if code == PolicyViolation {
        closeMessage := closeMessage + PolicyHint;
      }
    }
  }

  /** A normal closure reports exactly the fixed sentence, whatever the reason. */
  lemma NormalClosureText(reason: string)
    ensures CloseText(NormalClosure, reason) == "Disconnected from server"
  {
  }

  /** Any other code reports the sentence followed by the code and the reason,
      and an empty reason cannot be told apart from the reason `Unknown`. */
  lemma OtherCodeText(code: nat, reason: string)
    requires code != NormalClosure
    ensures StartsWith(CloseText(code, reason),
      Base + (" (Code: " + NatToString(code) + ", Reason: " + (if reason == [] then "Unknown" else reason) + ")"))
    ensures CloseText(code, "") == CloseText(code, "Unknown")
  {
    PrefixOfConcat(Base + Detail(code, reason), Hint(code));
    Reassoc(" (Code: " + NatToString(code), ", Reason: ", ReasonText(reason), ")");
  }

  lemma Reassoc(p: string, q: string, r: string, s: string)
    ensures ((p + q) + r) + s == p + ((q + r) + s)
  {
  }

  /** How a report ends: `g.` after the abnormal hint, `s.` after the protocol
      hint, `n.` after the policy hint, and `)` for every other code but a
      normal closure, whose report is the sentence alone. */
  lemma CloseTextEnding(code: nat, reason: string)
    ensures var t := CloseText(code, reason);
      && |t| >= 2
      && (code == NormalClosure ==> t == Base)
      && (code == AbnormalClosure ==> t[|t| - 2] == 'g' && t[|t| - 1] == '.')
      && (code == ProtocolError ==> t[|t| - 2] == 's' && t[|t| - 1] == '.')
      && (code == PolicyViolation ==> t[|t| - 2] == 'n' && t[|t| - 1] == '.')
      && (code !in {NormalClosure, AbnormalClosure, ProtocolError, PolicyViolation} ==> t[|t| - 1] == ')')
  {
    if code != NormalClosure {
      var head := Base + Detail(code, reason);
      var h := Hint(code);
      if h == [] {
        assert head + h == head;
        var inner := " (Code: " + NatToString(code) + (", Reason: " + ReasonText(reason));
        assert Detail(code, reason) == inner + ")";
        assert head == (Base + inner) + ")";
      } else {
        LastTwoOfConcat(head, h);
      }
    }
  }

  /** Every report but a normal closure's ends with the hint of its code, and
      a code without a hint ends the report with the closing `)` of the
      code and reason. */
  lemma CloseTextEndsWithHint(code: nat, reason: string)
    ensures var t := CloseText(code, reason);
      && (code != NormalClosure ==> EndsWith(t, Hint(code)))
      && (code !in {NormalClosure, AbnormalClosure, ProtocolError, PolicyViolation} ==> t != [] && t[|t| - 1] == ')')
  {
    CloseTextEnding(code, reason);
    if code != NormalClosure {
      EndsWithConcat(Base + Detail(code, reason), Hint(code));
    }
  }

  /** A hint ends the report when the code is its own. */
  lemma OwnHintAtEnd(code: nat, reason: string)
    requires code in {AbnormalClosure, ProtocolError, PolicyViolation}
    ensures EndsWith(CloseText(code, reason), Hint(code))
  {
    EndsWithConcat(Base + Detail(code, reason), Hint(code));
  }

  /** A report that ends with the abnormal-closure hint is one for 1006. */
  lemma AbnormalHintOnlyFor(code: nat, reason: string)
    requires EndsWith(CloseText(code, reason), AbnormalHint)
    ensures code == AbnormalClosure
  {
    CloseTextEnding(code, reason);
    EndsWithLastTwo(CloseText(code, reason), AbnormalHint);
  }

  /** A report that ends with the protocol-error hint is one for 1002. */
  lemma ProtocolHintOnlyFor(code: nat, reason: string)
    requires EndsWith(CloseText(code, reason), ProtocolHint)
    ensures code == ProtocolError
  {
    CloseTextEnding(code, reason);
    EndsWithLastTwo(CloseText(code, reason), ProtocolHint);
  }

  /** A report that ends with the policy-violation hint is one for 1008. */
  lemma PolicyHintOnlyFor(code: nat, reason: string)
    requires EndsWith(CloseText(code, reason), PolicyHint)
    ensures code == PolicyViolation
  {
    CloseTextEnding(code, reason);
    EndsWithLastTwo(CloseText(code, reason), PolicyHint);
  }

  /** Each hint appears at the end of the report exactly for its own code, so
      a report never carries more than one of them. */
  lemma HintsExclusive(code: nat, reason: string)
    ensures EndsWith(CloseText(code, reason), AbnormalHint) <==> code == AbnormalClosure
    ensures EndsWith(CloseText(code, reason), ProtocolHint) <==> code == ProtocolError
    ensures EndsWith(CloseText(code, reason), PolicyHint) <==> code == PolicyViolation
  {
    var t := CloseText(code, reason);
    if code in {AbnormalClosure, ProtocolError, PolicyViolation} {
      OwnHintAtEnd(code, reason);
    }
    if EndsWith(t, AbnormalHint) {
      AbnormalHintOnlyFor(code, reason);
    }
    if EndsWith(t, ProtocolHint) {
      ProtocolHintOnlyFor(code, reason);
    }
    if EndsWith(t, PolicyHint) {
      PolicyHintOnlyFor(code, reason);
    }
  }

  /** Regrouping a report so that the code's digits start the second part. */
  lemma Regroup(base: string, tag: string, digits: string, rest: string, hint: string)
    ensures (base + (tag + digits + rest)) + hint == (base + tag) + (digits + (rest + hint))
  {
  }

  /** What follows the digits of the code starts with a comma. */
  lemma AfterDigits(reason: string, hint: string)
    ensures ReasonPart(reason) + hint != [] && (ReasonPart(reason) + hint)[0] == ','
  {
    var tag := ", Reason: ";
    assert tag[0] == ',';
    assert ReasonPart(reason)[0] == ',';
  }

  /** The code can be read back from the report: two closes with different
      codes never give the same text. */
  lemma CloseTextDeterminesCode(c1: nat, r1: string, c2: nat, r2: string)
    requires CloseText(c1, r1) == CloseText(c2, r2)
    ensures c1 == c2
  {
    if c1 != NormalClosure && c2 != NormalClosure {
      var tag := " (Code: ";
      var d1, d2 := NatToString(c1), NatToString(c2);
      var rest1, rest2 := ReasonPart(r1) + Hint(c1), ReasonPart(r2) + Hint(c2);
      Regroup(Base, tag, d1, ReasonPart(r1), Hint(c1));
      Regroup(Base, tag, d2, ReasonPart(r2), Hint(c2));
      CancelPrefix(Base + tag, d1 + rest1, d2 + rest2);
      AfterDigits(r1, Hint(c1));
      AfterDigits(r2, Hint(c2));
      DigitRunsDelimited(d1, rest1, d2, rest2);
      NatToStringInjective(c1, c2);
    }
  }

  /** The report for an abnormal closure with no reason, written out. */
  lemma AbnormalClosureExample()
    ensures CloseText(1006, "") == Base + " (Code: 1006, Reason: Unknown)" + AbnormalHint
  {
    assert NatToString(1006) == "1006" by {
      assert NatToString(1) == "1";
      assert NatToString(10) == "10";
      assert NatToString(100) == "100";
    }
    assert Detail(1006, "") == " (Code: 1006, Reason: Unknown)";
  }
}
